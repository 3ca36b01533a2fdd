# Tile semantics of DDNet's collision map, and the editor's envelope

This project models the discrete core of `CCollision`, which DDNet's game world
uses to answer questions about the tile map. It covers:

- the row-major tile grid with its optional layers: game, front, tele,
  speedup, switch, tune and door;
- clamped indexing of the grid by world coordinates;
- the neutral answers the lookups give for a negative index or an absent layer;
- the stopper tiles and the move-restriction bitmask they produce;
- the switch/door derivation done by `Init`, and the single-cell writes
  `SetCollisionAt` and `SetDCollisionAt`;
- the payload predicates of a moving tile (a tile carried by a quad);
- the discrete, keyframe-selecting part of `evaluate_envelope`.

It also models the editor's envelope (`CEnvelope`), a growable list of keyframe
points that is kept sorted, together with its channel count and type.

Modules, one per file:

- **Wrappers** (`wrappers.dfy`): `Option`.
- **Arith** (`arith.dfy`): C++ truncating `/` and `%`, `(int)` casts of
  floats, `clamp` and `round_to_int`, over `int` and `real`.
- **Tiles** (`tiles.dfy`): tile ids, tile flags and the tile records of the
  map layers. Records have `unsigned char` fields.
- **Layers** (`layers.dfy`): a value snapshot `Grid` of the collision map and
  every `const` query of `CCollision` as a function on it.
- **MovingTiles** (`moving_tiles.dfy`): `CMovingTileData` and its
  predicates.
- **MoveRestrictions** (`move_restrictions.dfy`): the stopper table, the
  per-direction masks, `GetMoveRestrictions` as a method with a loop proved
  against a specification function, and `ClampVel`.
- **EnvPoints** and **EnvelopeEval** (`env_points.dfy`, `envelope_eval.dfy`):
  the map's keyframes, and `evaluate_envelope` as a method with its scan
  loop. The method is proved against a specification function, and the
  properties of that function are stated as lemmas.
- **Collision** (`collision.dfy`): the `Collision` class, which holds the
  layer arrays. Its `View()` is the `Grid` the queries read. `Init`, `Dest`,
  `SetCollisionAt` and `SetDCollisionAt` update the arrays in place. The
  door derivation loop of `Init` is the array method `DeriveDoors`.
- **EditorEnvelope** (`editor_envelope.dfy`): the `Envelope` class, with its
  point list as a field, and the point-access functions.

The world is in floating point and is idealised as `real`. Cell coordinates
use C++'s truncating division by 32, written out explicitly. The switch-active
callback of `GetMoveRestrictions` is a parameter of type
`Option<int -> bool>`.

The map-item headers that define the tile records, the tile ids and
`CEnvPoint` (`game/mapitems.h`) are not part of this model. The same holds
for `base/math.h`, `base/vmath.h`, `engine/shared/protocol.h`,
`game/editor/mapitems/envelope_point.h` and the render tools. Constants that
come from these headers take DDNet's values:

- the tile ids;
- `ROTATION_*` = 0, 8, 3, 11;
- `CURVETYPE_*` = 0..5;
- `SERVER_TICK_SPEED` = 50;
- `fx2f(v)` = `v / 1024`.

## Model

| member | source | states |
|---|---|---|
| Arith.TruncDiv | src/game/collision.cpp:1426-1431 | C++ integer division: the quotient truncates toward zero, with the remainder's sign following the dividend |
| Arith.TruncMod | src/game/collision.cpp:398-406 | C++ `%`: dividend = quotient·divisor + remainder, and the remainder has the dividend's sign and magnitude below the divisor |
| Arith.TruncReal | src/game/collision.cpp:381 | a float-to-int cast truncates toward zero |
| Arith.Clamp | src/game/collision.cpp:1428-1429 | `clamp` gives lo below the range and hi above it, and is the identity inside it |
| Arith.RoundToInt | src/game/collision.h:64 | `round_to_int` rounds half away from zero: the result is within 0.5 of the argument |
| Arith.RoundInt | src/game/collision.h:64 | rounding a whole number gives it back |
| Tiles.ToUint8 | src/game/collision.cpp:1701 | storing an `int` in an `unsigned char` field is reduction modulo 256, and the identity on 0..255 |
| Layers.CellIndex | src/game/collision.cpp:1426-1431 | on a grid with positive width and height the cell index of any coordinates is in `[0, W*H)` |
| Layers.CellIndexCoordinates | src/game/collision.cpp:1426-1431 | the index is row-major: it splits back into the clamped column and row |
| Layers.CellIndexClampsToEdge | src/game/collision.cpp:1426-1431 | coordinates past an edge land on the edge cell: clamping the coordinates first does not change the index |
| Layers.CellIndexOfCell | src/game/collision.cpp:1426-1431 | every point inside cell (cx, cy) indexes that cell |
| Layers.GetPureMapIndex | src/game/collision.cpp:1426-1431 | the index of float coordinates is the cell index of the coordinates rounded half away from zero, and is in range |
| Layers.GetPureMapIndexAt | src/game/collision.h:103 | the `vec2` overload equals the two-float form |
| Layers.GetPos | src/game/collision.cpp:1551-1559 | a negative index gives (0, 0); otherwise the centre of the cell, at x·32+16, y·32+16 |
| Layers.PosRoundTrip | src/game/collision.cpp:1551-1559 | for every index in range, `GetPureMapIndex(GetPos(i)) == i` |
| Layers.GetTile | src/game/collision.cpp:711-723 | 0 without a game layer; otherwise 0 or a tile in `[TILE_SOLID, TILE_NOLASER]`, which is then the tile at the clamped cell |
| Layers.IsSolid | src/game/collision.cpp:1166-1170 | holds exactly when the game tile at the cell is `TILE_SOLID` or `TILE_NOHOOK` |
| Layers.CheckPoint | src/game/collision.h:64 | holds exactly when `IsSolid` holds at the rounded coordinates |
| Layers.CheckPointAt | src/game/collision.h:65 | the `vec2` overload agrees with the two-float form |
| Layers.GetCollisionAt | src/game/collision.h:66 | 0 or the game tile at the rounded coordinates, and 0 exactly when that tile is not a collision tile |
| Layers.GetFTile | src/game/collision.cpp:1633-1643 | 0 without a front layer; otherwise `TILE_DEATH` or `TILE_NOLASER` when the front cell holds it, else 0 |
| Layers.GetFCollisionAt | src/game/collision.h:85 | `GetFTile` at the rounded coordinates: 0, `TILE_DEATH` or `TILE_NOLASER`; nonzero only when the front cell holds that tile, and the front cell's `TILE_DEATH` or `TILE_NOLASER` is always reported |
| Layers.IsNoLaser | src/game/collision.cpp:1206-1209 | holds exactly when the game tile at the cell is `TILE_NOLASER` |
| Layers.IsFNoLaser | src/game/collision.cpp:1211-1214 | holds exactly when a front layer exists and its cell is `TILE_NOLASER` |
| Layers.GetIndex | src/game/collision.cpp:1589-1592 | the game tile at cell (Nx, Ny) |
| Layers.GetFIndex | src/game/collision.cpp:1626-1631 | the front tile at cell (Nx, Ny), 0 without a front layer |
| Layers.GetTileIndex | src/game/collision.cpp:1561-1566 | 0 for a negative index, else the stored game tile id |
| Layers.GetTileFlags | src/game/collision.cpp:1575-1580 | 0 for a negative index, else the stored game tile flags |
| Layers.GetFTileIndex | src/game/collision.cpp:1568-1573 | 0 for a negative index or no front layer, else the stored front tile id |
| Layers.GetFTileFlags | src/game/collision.cpp:1582-1587 | 0 for a negative index or no front layer, else the stored front tile flags |
| Layers.TeleNumber | src/game/collision.cpp:1216-1311 | on a static cell, 0 for a negative index or no tele layer, else the tele number when the tele type matches; on a moving tile, the tile's teleport number of that type; a nonzero result means a teleporter of that kind is there, and a teleporter of that kind always reports its stored number |
| Layers.IsTeleport | src/game/collision.cpp:1216-1229 | 0 for a negative index or no tele layer; nonzero only on a `TILE_TELEIN` cell or tele moving tile, which reports its number |
| Layers.IsEvilTeleport | src/game/collision.cpp:1231-1244 | as `IsTeleport`, for `TILE_TELEINEVIL` |
| Layers.IsCheckTeleport | src/game/collision.cpp:1246-1259 | as `IsTeleport`, for `TILE_TELECHECKIN` |
| Layers.IsCheckEvilTeleport | src/game/collision.cpp:1261-1274 | as `IsTeleport`, for `TILE_TELECHECKINEVIL` |
| Layers.IsTeleCheckpoint | src/game/collision.cpp:1276-1289 | as `IsTeleport`, for `TILE_TELECHECK` |
| Layers.IsTeleportWeapon | src/game/collision.cpp:1291-1300 | 0 for a negative index or no tele layer; nonzero only on a `TILE_TELEINWEAPON` cell, which reports its number |
| Layers.IsTeleportHook | src/game/collision.cpp:1302-1311 | 0 for a negative index or no tele layer; nonzero only on a `TILE_TELEINHOOK` cell, which reports its number |
| Layers.TeleQueriesExclusive | src/game/collision.cpp:1216-1311 | at most one tele query reports a teleporter at a given cell |
| Layers.IsSpeedup | src/game/collision.cpp:1313-1322 | the index itself when the speedup cell has positive force, else 0; so index 0 always reads as "no speedup" |
| Layers.GetSpeedup | src/game/collision.cpp:1335-1344 | nothing for a negative index or no speedup layer, else the cell's force, maximum speed and angle |
| Layers.IsTune | src/game/collision.cpp:1324-1333 | 0 for a negative index or no tune layer, else the tune number when the cell is a tune tile |
| Layers.GetSwitchType | src/game/collision.cpp:1346-1355 | 0 for a negative index or no switch layer, else the stored switch type |
| Layers.GetSwitchNumber | src/game/collision.cpp:1357-1366 | nonzero only on a switch cell of nonzero type, where it is the stored number |
| Layers.GetSwitchDelay | src/game/collision.cpp:1368-1377 | nonzero only on a switch cell of nonzero type, where it is the stored delay |
| Layers.GetDTileIndex | src/game/collision.cpp:1716-1721 | nonzero exactly when a door layer exists, the index is not negative and the cell is set, and then the door tile id |
| Layers.GetDTileNumber | src/game/collision.cpp:1723-1730 | the door's switch number on a set door cell, else 0 |
| Layers.GetDTileFlags | src/game/collision.cpp:1732-1737 | the door flags on a set door cell, else 0 |
| Layers.IsWallJump | src/game/collision.cpp:1198-1204 | holds exactly when the index is not negative and the game tile is `TILE_WALLJUMP` |
| Layers.TimeCheckpointOf | src/game/collision.cpp:1862-1886 | a time-checkpoint tile maps to its offset from the first one, and any other tile to -1 |
| Layers.IsTimeCheckpoint | src/game/collision.cpp:1862-1875 | -1 for a negative index, else the time-checkpoint number of the game tile; a moving tile gives 0 |
| Layers.IsFTimeCheckpoint | src/game/collision.cpp:1877-1886 | -1 for a negative index or no front layer, else the time-checkpoint number of the front tile |
| Layers.IsThrough | src/game/collision.cpp:1172-1181 | holds exactly when the front cell is `THROUGH_ALL`, `THROUGH_CUT`, or `THROUGH_DIR` travelled along its direction, or when the offset cell holds `TILE_THROUGH` in either layer |
| Layers.IsHookBlocker | src/game/collision.cpp:1183-1196 | `THROUGH_ALL`, or `THROUGH_DIR` travelled against its direction, on either layer at the cell |
| Layers.ThroughDirAgainstHook | src/game/collision.cpp:1172-1196 | a one-way `THROUGH_DIR` cell lets a movement along its direction through and blocks the hook going back |
| Layers.ThroughOffset | src/game/collision.cpp:1739-1769 | the offset is one tile along the dominant axis of the movement, pointing back against it, and 0 on the other axis |
| Layers.IsMover | src/game/collision.cpp:1379-1391 | exactly the `TILE_CP`/`TILE_CP_F` tiles report their id, all others 0; the flags are always reported |
| Layers.MoverDirection | src/game/collision.cpp:1399-1418 | each of the four rotations gives a speed of 4 along one axis (up, right, down, left in that order), any other flags give (0, 0) |
| Layers.CpSpeed | src/game/collision.cpp:1393-1424 | flags default to 0 as in collision.h:139; (0, 0) for a negative index; the mover direction, of length 4, for `TILE_CP` and four times that for `TILE_CP_F` |
| Layers.CpSpeedAxisAligned | src/game/collision.cpp:1393-1424 | a mover's speed is along exactly one axis |
| MovingTiles.TriangleIndices | src/game/collision.cpp:25-33 | the corners (3, 2, 1) and (1, 2, 0) with the pattern set, else (1, 3, 0) and (0, 3, 2); each triangle has three distinct corners, together they cover all four, and they share the diagonal the pattern selects |
| MovingTiles.Triangulate | src/game/collision.cpp:25-33 | the triangles are the cached corners in exactly that order; every vertex is a cached corner, and every corner is in a triangle |
| MovingTiles.IsSolid | src/game/collision.cpp:35-46 | only a plain moving tile (skip 0) can be solid, and it is solid exactly when its index is a blocking tile: solid, no-hook or one of the through tiles |
| MovingTiles.IsThrough | src/game/collision.cpp:48-69 | only a plain `THROUGH_ALL` or `THROUGH_DIR` moving tile lets a movement through; `THROUGH_ALL` always does, `THROUGH_DIR` exactly when the movement goes the way its reserved byte names |
| MovingTiles.ThroughIsSolid | src/game/collision.cpp:35-69 | a moving tile that lets a movement through is solid |
| MovingTiles.ThroughDirIsOneWay | src/game/collision.cpp:48-69 | a `THROUGH_DIR` moving tile never lets both a movement and its reverse through |
| MovingTiles.GetTileIndex | src/game/collision.cpp:71-80 | the index for a plain tile, the flags for a tele tile; a solid moving tile gives a blocking index |
| MovingTiles.GetTeleportNumber | src/game/collision.cpp:86-93 | nonzero only for a tele moving tile of that type, where it is the stored number |
| MovingTiles.SolidAndTeleportExclusive | src/game/collision.cpp:35-93 | a solid moving tile never teleports |
| MoveRestrictions.CantMoveBits | src/game/collision.h:14-20 | the four CANTMOVE bits are distinct single bits that make up `CANTMOVE_ALL` |
| MoveRestrictions.RotationBits | src/game/collision.cpp:597 | the flags masked with the X-flip, Y-flip and rotate bits (1, 2 and 8) take one of eight values |
| MoveRestrictions.RotationBitsIsMask | src/game/collision.cpp:597 | the arithmetic on the flag bits equals the bitwise mask `flags & 11`, the three flags OR-ed together |
| MoveRestrictions.Opposite | src/game/collision.cpp:605-622 | the opposite bit is a different single bit, pairing left with right and up with down |
| MoveRestrictions.Raw | src/game/collision.cpp:595-633 | `TILE_STOP` gives one bit, `TILE_STOPS` an opposite pair, `TILE_STOPA` all four bits, and any other tile 0 |
| MoveRestrictions.StopFlipReverses | src/game/collision.cpp:601-622 | flipping a `TILE_STOP` vertically reverses the blocked direction |
| MoveRestrictions.RotationBitsFlipY | src/game/collision.cpp:601-603 | YFLIP moves the rotation key by 2 |
| MoveRestrictions.StopsIsStopBothWays | src/game/collision.cpp:605-627 | `TILE_STOPS` blocks the `TILE_STOP` direction and its opposite |
| MoveRestrictions.Mask | src/game/collision.cpp:635-647 | HERE gives no bit; every other direction gives the single bit of the way it points |
| MoveRestrictions.Directional | src/game/collision.cpp:649-660 | for a probe direction, the bits are those of the raw table within that direction's bit; at HERE only a `TILE_STOP` contributes, and then fully |
| MoveRestrictions.ProbeIndex | src/game/collision.cpp:674-680 | every probe lands on a cell of the grid, including the centre override |
| MoveRestrictions.Probes | src/game/collision.cpp:671-708 | one probe value per direction |
| MoveRestrictions.ProbeCell | src/game/collision.cpp:681-706 | a cell contributes its game and front restrictions, plus the door's when the switch is active |
| MoveRestrictions.GetMoveRestrictions | src/game/collision.cpp:662-709 | the accumulated restrictions are the OR of all probes, as the specification function states; distance and centre override default to 18 and -1, as in collision.h:92 |
| MoveRestrictions.GetMoveRestrictionsAt | src/game/collision.h:93-97 | the short form is the full one with no switch callback, no centre override and distance 18; it never reads the door layer |
| MoveRestrictions.NoCallbackIgnoresDoors | src/game/collision.cpp:697-705 | without a switch callback the door layer contributes nothing |
| MoveRestrictions.ElementWithinOrAll | src/game/collision.cpp:671-708 | each probe's bits are in the total |
| MoveRestrictions.OrAllWithin | src/game/collision.cpp:671-708 | the total holds no bit that no probe holds |
| MoveRestrictions.RestrictionsWithinAll | src/game/collision.cpp:662-709 | the result uses only the four CANTMOVE bits |
| MoveRestrictions.ProbeWithinMask | src/game/collision.cpp:649-660 | a non-HERE probe contributes only its direction's bit |
| MoveRestrictions.RestrictionsMonotone | src/game/collision.cpp:697-705 | activating more switches never removes a restriction |
| MoveRestrictions.StopperToTheRightBlocks | src/game/collision.cpp:635-708 | any game tile on the right probe's cell whose stopper table includes `CANTMOVE_RIGHT` (a `TILE_STOPA`, a `TILE_STOPS` or a `TILE_STOP` turned that way) blocks moving right |
| MoveRestrictions.NoStoppersNoRestrictions | src/game/collision.cpp:662-709 | with no stopper under any probe, and no door, the result is 0 |
| MoveRestrictions.ClampVel | src/game/collision.cpp:99-118 | a component is zeroed exactly when it points into a restricted direction, and is otherwise kept |
| MoveRestrictions.ClampVelProperties | src/game/collision.cpp:99-118 | no sign ever flips, restriction 0 leaves the velocity alone, and clamping is idempotent |
| EnvelopeEval.WrappedNanos | src/game/collision.cpp:398-406 | the C++ remainder of the clock by a positive period: the clock is a whole number of periods (truncated quotient) plus the result, which lies in `[0, period)` for a non-negative clock and in `(-period, 0]` for a negative one; a period ≤ 0 gives 0 |
| EnvelopeEval.WrappedNanosPeriodic | src/game/collision.cpp:398-406 | for a non-negative clock and a positive period, adding whole periods does not change the wrapped clock |
| EnvelopeEval.WrappedNanosNotPeriodicAcrossZero | src/game/collision.cpp:398-406 | for a negative clock the wrap is not periodic: -5 wraps to -5 by 10, but -5 + 10 wraps to 5 |
| EnvelopeEval.LastBracketBelow | src/game/collision.cpp:410-447 | the chosen segment brackets the clock and no later one does, because the scan does not stop; none means no segment brackets it |
| EnvelopeEval.Reshape | src/game/collision.cpp:419-433 | step gives 0; every curve keeps 0 at 0, every curve but step keeps 1 at 1, and every curve maps [0, 1] into [0, 1]; linear and bezier leave the parameter as it is |
| EnvelopeEval.MixBetween | src/game/collision.cpp:435-445 | mixing with a parameter in [0, 1] stays between the two values |
| EnvelopeEval.Keyframes | src/game/collision.cpp:384-395 | the quad's keyframes are exactly its `m_NumEnvPoints` points, the i-th being point `m_StartEnvPoint + i` |
| EnvelopeEval.EvaluateEnvelope | src/game/collision.cpp:379-458 | the loop computes the specification function: no offset without keyframes, one keyframe's value, otherwise the last bracketing segment on the wrapped clock, else the last keyframe |
| EnvelopeEval.EvaluateSegment | src/game/collision.cpp:412-445 | one pass of the scan loop gives the offset of segment i as the specification function defines it |
| EnvelopeEval.SingleKeyframeConstant | src/game/collision.cpp:390-395 | one keyframe gives the same offset at every tick |
| EnvelopeEval.EnvelopePeriodic | src/game/collision.cpp:379-447 | with at least two keyframes and a non-negative clock, advancing by a whole number of periods gives the same offset |
| EnvelopeEval.BracketExists | src/game/collision.cpp:410-447 | on sorted keyframes a clock inside their span is bracketed by some segment |
| EnvelopeEval.ChosenSegmentHalfOpen | src/game/collision.cpp:410-447 | on sorted keyframes and before the last keyframe, the chosen segment contains the clock at its left end and not at its right end |
| EnvelopeEval.EnvelopeWithinKeyframes | src/game/collision.cpp:398-453 | on sorted keyframes with a positive last time, for a non-negative clock whose wrapped value is at or past the first keyframe, the offset lies between the values of the two keyframes of some segment |
| EnvelopeEval.SegmentParameterInUnit | src/game/collision.cpp:412-417 | the raw parameter of the chosen segment is in [0, 1) |
| EnvelopeEval.InterpolateBetween | src/game/collision.cpp:435-445 | each channel of the mix lies between the two keyframes |
| EnvelopeEval.StepHoldsLeftValue | src/game/collision.cpp:419-422 | a step segment holds its left keyframe's value |
| EnvelopeEval.SegmentStartsAtLeftKeyframe | src/game/collision.cpp:412-445 | at its left keyframe's time a segment gives that keyframe's value |
| Collision.NormalizeSwitchType | src/game/collision.cpp:228-236 | a type up to `TILE_NPH_ENABLE` is kept when it is in `[TILE_JUMP, TILE_SUBTRACT_TIME]` or is one of the two tele-gun types, otherwise it is reset to 0; types above are kept |
| Collision.MaxSwitchNumber | src/game/collision.cpp:215-220 | the highest switch number, bounding every number and attained by one, or 0 when all are ≤ 0 |
| Collision.MaxSwitchNumberStep | src/game/collision.cpp:219-220 | one loop step keeps the running maximum |
| Collision.Loaded | src/game/collision.cpp:173-213 | the map after loading: the game layer with its size; a door layer exactly when a switch layer is present; the front, tele, speedup and tune layers each attached exactly when present and holding at least W·H cells, and then holding the first W·H of them |
| Collision.LoadedHighest | src/game/collision.cpp:215-238 | the recorded highest switch number is not negative, and is 0 without an attached switch layer |
| Collision.LoadedDoorsFollowSwitches | src/game/collision.cpp:215-238 | after `Init`, each door cell is an empty door carrying its switch cell's number, and the switch numbers and delays are kept |
| Collision.LoadedSwitchTypesNormalized | src/game/collision.cpp:228-236 | after `Init`, every switch type up to `TILE_NPH_ENABLE` is a kept type or 0 |
| Collision.LoadedShortSwitchLayer | src/game/collision.cpp:187-194 | a switch layer too small for the grid is not attached, but a zeroed door layer is still allocated |
| Collision.LoadedDoorsClosed | src/game/collision.cpp:215-238 | after `Init` no door cell is set, so every door query is neutral |
| Collision.LoadedHighestBoundsSwitches | src/game/collision.cpp:215-238 | after `Init` no switch number exceeds `m_HighestSwitchNumber` |
| Collision.SetTileIndexAt | src/game/collision.cpp:1696-1702 | writing a tile changes only the game layer and keeps its size |
| Collision.SetTileIndexAtWritesOneCell | src/game/collision.cpp:1696-1702 | only the rounded, clamped cell changes: its id becomes the value truncated to a byte, and its flags are kept |
| Collision.SetTileIndexAtIsVisible | src/game/collision.cpp:1696-1702 | a written collision tile is what `GetCollisionAt` reads back, and `CheckPoint` holds exactly for solid and no-hook tiles |
| Collision.SetDoorAt | src/game/collision.cpp:1704-1714 | writing a door changes only the door layer; without one, nothing changes |
| Collision.SetDoorAtIsVisible | src/game/collision.cpp:1704-1714 | only the addressed door cell changes, and the door queries read back the written type, flags and number |
| Collision.Contents | src/game/collision.h:159-164 | a null layer pointer is an absent layer; otherwise its contents have the array's length |
| Collision.NewLayer | src/game/collision.cpp:173-213 | a fresh array holding the first W·H cells of a large enough layer, else null |
| Collision.DerivedAll | src/game/collision.cpp:215-238 | after the last step the switch layer is normalized and every door carries its switch number |
| Collision.DeriveDoors | src/game/collision.cpp:215-238 | the loop records the highest switch number, normalizes every switch type in place and copies every switch number into the door array |
| Collision.LoadSwitchLayer | src/game/collision.cpp:187-238 | the switch and door arrays and the highest number are those `Init` produces |
| Collision.LoadLayers | src/game/collision.cpp:164-238 | all arrays together form the loaded map, and the highest switch number is recorded |
| Collision.Collision.constructor | src/game/collision.cpp:120-133 | an empty map of width and height 0 with no layers |
| Collision.Collision.Dest | src/game/collision.cpp:1151-1164 | every layer is released and the width and height are 0; the highest switch number is kept |
| Collision.Collision.Init | src/game/collision.cpp:164-238 | after `Dest` and resetting the highest switch number, the class holds the loaded map with the given width and height, and the highest switch number of its switch layer |
| Collision.Collision.GetWidth | src/game/collision.h:67 | the width of the grid the class holds |
| Collision.Collision.GetHeight | src/game/collision.h:68 | the height of the grid the class holds |
| Collision.Collision.Install | src/game/collision.cpp:164-238 | the fields hold the given arrays |
| Collision.Collision.SetCollisionAt | src/game/collision.cpp:1696-1702 | the class's map becomes `SetTileIndexAt` of the old one |
| Collision.Collision.SetDCollisionAt | src/game/collision.cpp:1704-1714 | the class's map becomes `SetDoorAt` of the old one; without a door layer nothing changes |
| EditorEnvelope.TypeForChannels | src/game/editor/mapitems/envelope.cpp:37-54 | exactly the channel counts 1, 3 and 4 name an envelope type |
| EditorEnvelope.Insert | src/game/editor/mapitems/envelope.cpp:56-59 | insertion adds exactly the new point |
| EditorEnvelope.InsertSorted | src/game/editor/mapitems/envelope.cpp:56-59 | inserting into a sorted list keeps it sorted |
| EditorEnvelope.InsertStep | src/game/editor/mapitems/envelope.cpp:56-59 | one insertion step keeps the prefix sorted and a permutation of the input read so far |
| EditorEnvelope.NumPoints | src/game/editor/mapitems/envelope.cpp:15-18 | the number of stored points |
| EditorEnvelope.GetPoint | src/game/editor/mapitems/envelope.cpp:20-25 | nothing for an index below 0 or at or beyond the size, else the stored keyframe |
| EditorEnvelope.GetBezier | src/game/editor/mapitems/envelope.cpp:27-32 | nothing for an index below 0 or at or beyond the size, else the stored bezier handles |
| EditorEnvelope.AccessorsAgree | src/game/editor/mapitems/envelope.cpp:20-32 | both accessors accept the same indices and together give back the stored point |
| EditorEnvelope.Envelope.OfType | src/game/editor/mapitems/envelope.cpp:34-35 | an empty envelope of the given type |
| EditorEnvelope.Envelope.constructor | src/game/editor/mapitems/envelope.cpp:37-54 | for 1, 3 or 4 channels an empty envelope whose `GetChannels` gives that count back |
| EditorEnvelope.Envelope.GetChannels | src/game/editor/mapitems/envelope.cpp:135-149 | 1, 3 or 4, the count that names the envelope's type |
| EditorEnvelope.Envelope.EndTime | src/game/editor/mapitems/envelope.cpp:128-133 | 0 for an empty envelope, otherwise the time of the last stored point |
| EditorEnvelope.Envelope.Resort | src/game/editor/mapitems/envelope.cpp:56-59 | the points end up sorted under the point order and are a permutation of the old ones |
| EditorEnvelope.Envelope.AddPoint | src/game/editor/mapitems/envelope.cpp:108-126 | exactly one point is added: linear, with the given time and values and zero tangents; the list is then sorted |
| EditorEnvelope.EndTimeIsLatest | src/game/editor/mapitems/envelope.cpp:128-133 | on a list sorted by time, the end time is the latest time stored |
| EditorEnvelope.ChannelsInjective | src/game/editor/mapitems/envelope.cpp:37-54 | two channel counts naming the same envelope type are equal |
| EditorEnvelope.ChannelsRoundTrip | src/game/editor/mapitems/envelope.cpp:37-54 | `GetChannels` is the one channel count that names the envelope's type: a count names it exactly when it equals `GetChannels` |

## Left out

- Float geometry is not modelled:
  - `point_in_triangle`, `line_intersects_line`, `line_intersects_triangle`;
  - `calculate_triangulation` and `normalize_ivec2`;
  - `Rotate`, the parallax helpers and `ApplyParaToHook`;
  - `MovePoint`, `MoveBox`, the quad box tests and moves, and `CheckPointQuadRectangular`;
  - the `IntersectLine*`, `IntersectNoLaser*` and `IntersectAir` marching loops;
  - `GetMapIndices`, `GetIndex(vec2, vec2)`, `UpdateHookPos`, `MoveGroundedQuad`, `GetQuadCollisionAt` and `GetQuadCollisionsBetween`.

  They are floating-point numerics on `cosf`, `sinf` and `acos`.
- `Tick` is not modelled. It rotates and offsets each quad's corners with
  trigonometry.
- `update_envelope` is not modelled for the same reason.
- Three parts of `evaluate_envelope` are not modelled:
  - the final `/ 180 * pi` conversion of the rotation channel. The model's
    third component stays in degrees;
  - bezier curves, which the code itself evaluates linearly;
  - non-finite floats, which appear only as the `NonFinite` result of a
    zero-length non-step segment.
- In `Init`, the `IMap`/`CLayers` plumbing is reduced to one rule: a layer is
  attached when it is present and holds at least W·H cells.
- `Init`'s quad and envelope scan (collision.cpp:241-363) is not modelled.
  It fills the moving-tile and envelope-point vectors from map items.
- The moving-tile and envelope-point vectors are not fields of the
  `Collision` class. The queries take them as arguments, and `Dest` does not
  clear them, as in the code.
- The model copies every layer into a fresh array. The code keeps pointers
  into the map's own layer data, so `Init`'s switch-type rewrite
  (collision.cpp:230-236) and the writes of `SetCollisionAt` and
  `SetDCollisionAt` (collision.cpp:1701, 1711-1713) also change the map's
  data. That aliasing is not captured.
- Collision.Collision.Init: requires a non-empty game layer of W·H cells,
  which the map format guarantees. The loaded map is otherwise undefined.
- Collision.Collision.constructor: the code leaves `m_HighestSwitchNumber`
  uninitialised; the model sets it to 0 and states nothing about it.
- MovingTiles.GetTileIndex: requires skip 0 or 1. For any other skip the
  code fails a `dbg_assert` and returns -1 (collision.cpp:76-79).
- EditorEnvelope.Envelope.constructor: requires 1, 3 or 4 channels. For any
  other count the code fails a `dbg_assert` (envelope.cpp:51-52).
- MoveRestrictions.GetMoveRestrictions: requires a distance in [0, 32]. The
  code fails a `dbg_assert` otherwise (collision.cpp:672). It also requires
  the centre override to be below W·H: a larger override makes the code read
  `m_pTiles` out of bounds (collision.cpp:676-681), which is undefined.
- MoveRestrictions.GetMoveRestrictionsAt: the same distance requirement, for
  the same `dbg_assert`.
- Layers.CpSpeed: requires a negative index, `TILE_CP` or `TILE_CP_F`. For
  any other index the code returns its uninitialised `target`
  (collision.cpp:1397-1423), so the model excludes that case.
- The destructor is not modelled; it only calls `Dest`.
- `SetDTile` is declared in collision.h:80 but never defined.
- `TileExists`, `TileExistsNext` and `GetMapIndex` are not modelled.
  `TileExistsNext` uses conditions that are always true
  (collision.cpp:1470, 1476, 1487), and `GetMapIndex` depends on
  `TileExists`.
- `FillAntibot` and `Entity` are not modelled. They are a `malloc` export
  and debug logging.
- The moving-tile stubs are not modelled. `CMovingTileData::IsHookBlocker`
  and `IsTimeCheckpoint` always return false; the model's
  `Layers.IsTimeCheckpoint` gives 0 for a moving tile, as the code does.
- `src/game/server/entities/moving_tiles.*` is entity glue without a
  coherent contract and is not part of this model.
- Layers.GetSpeedup: returns the stored angle in degrees instead of the
  direction vector; the conversion to a unit vector is float geometry.
- Integer overflow of `int` arithmetic is not modelled, for example
  `m_PosEnvOffset * 1000000` or `Ny * m_Width + Nx` on huge maps. Integers
  are unbounded, and stored bytes are reduced modulo 256.
- EnvelopeEval.EvaluateEnvelope: requires that the quad's keyframes exist in
  the envelope-point vector and that `m_NumEnvPoints` is not negative.
  Otherwise the code's `at()` would throw.
- The periodicity of the envelope is stated only for a non-negative clock.
  C++'s `%` truncates, so a negative clock (for example from a negative
  `m_PosEnvOffset`) wraps into (-T, 0], and one period later into [0, T): the
  code's envelope is not periodic across zero, as
  `EnvelopeEval.WrappedNanosNotPeriodicAcrossZero` shows.
- `CEnvelope::Eval` is not modelled. It calls render tools outside this
  model.
- `GetValueRange` is not modelled. It is a float min/max with infinities.
- `CEnvelope`'s name and `synchronized` fields, and the editor UI files, are
  not modelled.
- EditorEnvelope.Envelope.Resort: the point order is defined in
  `envelope_point.h`, which is not part of this model. It is a parameter
  assumed to be a total preorder. `std::sort` is not stable, so the contract
  states "sorted and a permutation" but not which of several equal points
  comes first.
- EditorEnvelope.Envelope.EndTime: returns the stored integer time of the
  last point; the conversion of the `CFixedTime` value to seconds is a float
  step not modelled.
- EditorEnvelope.EndTimeIsLatest: holds only for an order that never puts a
  later time first, since the real order is not part of this model.
- `fx2f` divides by 1024, as DDNet's `base/math.h` does (10 fractional bits).
