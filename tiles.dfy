/**
 * Tile numbering, tile flags and the per-layer tile records the collision
 * code reads. The numbering follows DDNet's map format (game/mapitems.h,
 * which is not part of this model); only the ids the core refers to are
 * listed.
 */
module Tiles {

  /** An `unsigned char` field of a map tile record. */
  type uint8 = x: int | 0 <= x < 256

  // Game/front layer tile ids.
  const TILE_AIR: int := 0
  const TILE_SOLID: int := 1
  const TILE_DEATH: int := 2
  const TILE_NOHOOK: int := 3
  const TILE_NOLASER: int := 4
  const TILE_THROUGH_CUT: int := 5
  const TILE_THROUGH: int := 6
  const TILE_JUMP: int := 7
  const TILE_FREEZE: int := 9
  const TILE_TELEINEVIL: int := 10
  const TILE_UNFREEZE: int := 11
  const TILE_TELEINWEAPON: int := 14
  const TILE_TELEINHOOK: int := 15
  const TILE_WALLJUMP: int := 16
  const TILE_TELEIN: int := 26
  const TILE_TELECHECK: int := 29
  const TILE_TELECHECKIN: int := 31
  const TILE_TIME_CHECKPOINT_FIRST: int := 35
  const TILE_TIME_CHECKPOINT_LAST: int := 59
  const TILE_STOP: int := 60
  const TILE_STOPS: int := 61
  const TILE_STOPA: int := 62
  const TILE_TELECHECKINEVIL: int := 63
  const TILE_CP: int := 64
  const TILE_CP_F: int := 65
  const TILE_THROUGH_ALL: int := 66
  const TILE_THROUGH_DIR: int := 67
  const TILE_SUBTRACT_TIME: int := 95
  const TILE_ALLOW_TELE_GUN: int := 98
  const TILE_ALLOW_BLUE_TELE_GUN: int := 99
  const TILE_NPH_ENABLE: int := 107

  // Tile flags and the four rotations built from them.
  const TILEFLAG_XFLIP: int := 1
  const TILEFLAG_YFLIP: int := 2
  const TILEFLAG_ROTATE: int := 8
  const ROTATION_0: int := 0
  const ROTATION_90: int := 8
  const ROTATION_180: int := 3
  const ROTATION_270: int := 11

  /** CTile: one cell of the game or front layer. */
  datatype Tile = Tile(index: uint8, flags: uint8, skip: uint8, reserved: uint8)

  /** CTeleTile: one cell of the teleporter layer. */
  datatype TeleTile = TeleTile(number: uint8, kind: uint8)

  /** CSpeedupTile: one cell of the speedup layer; the angle is a `short`. */
  datatype SpeedupTile = SpeedupTile(force: uint8, maxSpeed: uint8, kind: uint8, angle: int)

  /** CSwitchTile: one cell of the switch layer. */
  datatype SwitchTile = SwitchTile(number: uint8, kind: uint8, flags: uint8, delay: uint8)

  /** CTuneTile: one cell of the tune-zone layer. */
  datatype TuneTile = TuneTile(number: uint8, kind: uint8)

  /** CDoorTile: one cell of the door layer derived from the switch layer. */
  datatype DoorTile = DoorTile(index: uint8, flags: uint8, number: int)

  /** The zero-filled door record `mem_zero` produces. */
  const ZeroDoor: DoorTile := DoorTile(0, 0, 0)

  /** Conversion of a C++ int to an `unsigned char` field: modulo 256. */
  function ToUint8(v: int): (b: uint8)
    ensures 0 <= v < 256 ==> b == v
    ensures (v - b) % 256 == 0
  {
    v % 256
  }
}
