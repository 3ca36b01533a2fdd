/**
 * Stopper tiles and the CANTMOVE restriction mask a character collects from
 * the cells around it. Masks are C++ `int`s, modelled as `bv32`.
 */
module MoveRestrictions {
  import opened Arith
  import opened Tiles
  import opened Wrappers
  import opened Layers

  const CANTMOVE_LEFT: bv32 := 1
  const CANTMOVE_RIGHT: bv32 := 2
  const CANTMOVE_UP: bv32 := 4
  const CANTMOVE_DOWN: bv32 := 8

  /** All four restriction bits. */
  const CANTMOVE_ALL: bv32 := 15

  // The five probe directions: the centre cell and its four neighbours.
  const MR_DIR_HERE: int := 0
  const MR_DIR_RIGHT: int := 1
  const MR_DIR_DOWN: int := 2
  const MR_DIR_LEFT: int := 3
  const MR_DIR_UP: int := 4
  const NUM_MR_DIRS: int := 5

  /**
   * `Flags & (TILEFLAG_XFLIP | TILEFLAG_YFLIP | TILEFLAG_ROTATE)` for the
   * flags byte of a tile record, written with arithmetic on its bits.
   */
  function RotationBits(flags: uint8): (f: int)
    ensures f in {0, 1, 2, 3, 8, 9, 10, 11}
  {
    flags % 2 + 2 * ((flags / 2) % 2) + 8 * ((flags / 8) % 2)
  }

  /** The arithmetic of `RotationBits` is the bitwise mask `flags & 11`. */
  lemma RotationBitsIsMask(flags: uint8)
    ensures RotationBits(flags) == ((flags as bv8) & 11) as int
  {
  }

  /** `Flags ^ TILEFLAG_YFLIP` on a flags byte. */
  function FlipY(flags: uint8): uint8
  {
    if (flags / 2) % 2 == 1 then flags - 2 else flags + 2
  }

  predicate SingleBit(r: bv32)
  {
    r == CANTMOVE_LEFT || r == CANTMOVE_RIGHT || r == CANTMOVE_UP || r == CANTMOVE_DOWN
  }

  /** `a` sets no bit outside `b`. */
  predicate Within(a: bv32, b: bv32) { a & !b == 0 }

  lemma WithinOr(a: bv32, b: bv32, c: bv32)
    requires Within(a, b)
    ensures Within(a, b | c) && Within(a, c | b)
  {
  }

  lemma OrWithin(a: bv32, b: bv32, c: bv32)
    requires Within(a, c) && Within(b, c)
    ensures Within(a | b, c)
  {
  }

  /**
   * The four restriction bits are distinct single bits that together make
   * CANTMOVE_ALL, so combining restrictions with `|` is a set union of them.
   */
  lemma CantMoveBits()
    ensures CANTMOVE_LEFT & CANTMOVE_RIGHT == 0 && CANTMOVE_LEFT & CANTMOVE_UP == 0 && CANTMOVE_LEFT & CANTMOVE_DOWN == 0
    ensures CANTMOVE_RIGHT & CANTMOVE_UP == 0 && CANTMOVE_RIGHT & CANTMOVE_DOWN == 0 && CANTMOVE_UP & CANTMOVE_DOWN == 0
    ensures CANTMOVE_LEFT | CANTMOVE_RIGHT | CANTMOVE_UP | CANTMOVE_DOWN == CANTMOVE_ALL
  {
  }

  /** The restriction bit facing the other way. */
  function Opposite(b: bv32): (r: bv32)
    requires SingleBit(b)
    ensures SingleBit(r) && r != b
    ensures (b == CANTMOVE_LEFT <==> r == CANTMOVE_RIGHT) && (b == CANTMOVE_UP <==> r == CANTMOVE_DOWN)
  {
    if b == CANTMOVE_LEFT then CANTMOVE_RIGHT
    else if b == CANTMOVE_RIGHT then CANTMOVE_LEFT
    else if b == CANTMOVE_UP then CANTMOVE_DOWN
    else CANTMOVE_UP
  }

  /**
   * GetMoveRestrictionsRaw: the bits a stopper tile with the given flags
   * restricts. The direction argument of GetMoveRestrictionsRaw is unused and omitted.
   * A one-way stopper restricts exactly one direction for every flag value,
   * a two-way stopper exactly an opposite pair, an all-way stopper all four;
   * every other tile restricts nothing.
   */
  function Raw(tile: int, flags: uint8): (r: bv32)
    ensures Within(r, CANTMOVE_ALL)
    ensures tile == TILE_STOP ==> SingleBit(r)
    ensures tile == TILE_STOPS ==> r == CANTMOVE_UP | CANTMOVE_DOWN || r == CANTMOVE_LEFT | CANTMOVE_RIGHT
    ensures tile == TILE_STOPA ==> r == CANTMOVE_ALL
    ensures r != 0 <==> tile == TILE_STOP || tile == TILE_STOPS || tile == TILE_STOPA
  {
    var f := RotationBits(flags);
    if tile == TILE_STOP then
      if f == 0 then CANTMOVE_DOWN
      else if f == 8 then CANTMOVE_LEFT
      else if f == 3 then CANTMOVE_UP
      else if f == 11 then CANTMOVE_RIGHT
      else if f == 2 then CANTMOVE_UP
      else if f == 10 then CANTMOVE_RIGHT
      else if f == 1 then CANTMOVE_DOWN
      else if f == 9 then CANTMOVE_LEFT
      else 0
    else if tile == TILE_STOPS then
      if f == 0 || f == 3 || f == 2 || f == 1 then CANTMOVE_DOWN | CANTMOVE_UP
      else if f == 8 || f == 11 || f == 10 || f == 9 then CANTMOVE_LEFT | CANTMOVE_RIGHT
      else 0
    else if tile == TILE_STOPA then CANTMOVE_ALL
    else 0
  }

  /** Flipping a one-way stopper vertically turns it around. */
  lemma StopFlipReverses(flags: uint8)
    ensures Raw(TILE_STOP, FlipY(flags)) == Opposite(Raw(TILE_STOP, flags))
  {
    RotationBitsFlipY(flags);
  }

  /** Flipping vertically toggles the YFLIP bit and keeps the others. */
  lemma RotationBitsFlipY(flags: uint8)
    ensures RotationBits(FlipY(flags)) == if (flags / 2) % 2 == 1 then RotationBits(flags) - 2 else RotationBits(flags) + 2
  {
    var k, r := flags / 8, flags % 8;
    assert flags == 8 * k + r;
    if (flags / 2) % 2 == 1 {
      assert r == 2 || r == 3 || r == 6 || r == 7;
      assert FlipY(flags) == 8 * k + (r - 2);
    } else {
      assert r == 0 || r == 1 || r == 4 || r == 5;
      assert FlipY(flags) == 8 * k + (r + 2);
    }
  }

  /**
   * A two-way stopper restricts both directions of the axis its one-way
   * counterpart with the same flags restricts.
   */
  lemma StopsIsStopBothWays(flags: uint8)
    ensures Raw(TILE_STOPS, flags) == Raw(TILE_STOP, flags) | Opposite(Raw(TILE_STOP, flags))
  {
  }

  /** The unit step of each probe direction (DIRECTIONS in CCollision::GetMoveRestrictions). */
  function Direction(d: int): (r: Point)
    requires 0 <= d < NUM_MR_DIRS
  {
    if d == MR_DIR_HERE then Point(0, 0)
    else if d == MR_DIR_RIGHT then Point(1, 0)
    else if d == MR_DIR_DOWN then Point(0, 1)
    else if d == MR_DIR_LEFT then Point(-1, 0)
    else Point(0, -1)
  }

  /**
   * GetMoveRestrictionsMask: the bit of the direction the probe points to
   * (y grows downwards), and nothing for the centre probe; an invalid
   * direction is an assertion failure.
   */
  function Mask(d: int): (r: bv32)
    requires 0 <= d < NUM_MR_DIRS
    ensures d == MR_DIR_HERE <==> r == 0
    ensures d != MR_DIR_HERE ==> SingleBit(r)
    ensures r == CANTMOVE_RIGHT <==> Direction(d).x > 0
    ensures r == CANTMOVE_LEFT <==> Direction(d).x < 0
    ensures r == CANTMOVE_DOWN <==> Direction(d).y > 0
    ensures r == CANTMOVE_UP <==> Direction(d).y < 0
  {
    if d == MR_DIR_HERE then 0
    else if d == MR_DIR_RIGHT then CANTMOVE_RIGHT
    else if d == MR_DIR_DOWN then CANTMOVE_DOWN
    else if d == MR_DIR_LEFT then CANTMOVE_LEFT
    else CANTMOVE_UP
  }

  /**
   * The static ::GetMoveRestrictions: a stopper next to us only restricts
   * moving onto it, i.e. in the probe's own direction; on the centre cell
   * only a one-way stopper restricts, and then fully.
   */
  function Directional(d: int, tile: int, flags: uint8): (r: bv32)
    requires 0 <= d < NUM_MR_DIRS
    ensures Within(r, Raw(tile, flags)) && Within(r, CANTMOVE_ALL)
    ensures d != MR_DIR_HERE ==> Within(r, Mask(d))
    ensures d != MR_DIR_HERE && Within(Mask(d), Raw(tile, flags)) ==> r == Mask(d)
    ensures d == MR_DIR_HERE ==> (r != 0 ==> tile == TILE_STOP)
    ensures d == MR_DIR_HERE && tile == TILE_STOP ==> r == Raw(tile, flags)
  {
    var result := Raw(tile, flags);
    if d == MR_DIR_HERE && tile == TILE_STOP then result
    else result & Mask(d)
  }

  /** A switch-active callback (with its user pointer bound in); None for a null pointer. */
  type SwitchActive = Option<int -> bool>

  /** Pos + DIRECTIONS[d] * Distance. */
  function ProbePos(pos: Vec2, d: int, distance: real): Vec2
    requires 0 <= d < NUM_MR_DIRS
  {
    Vec2(pos.x + (Direction(d).x as real) * distance, pos.y + (Direction(d).y as real) * distance)
  }

  predicate ProbeArgs(g: Grid, overrideCenter: int)
  {
    ValidGrid(g) && g.tiles.Some? && overrideCenter < Cells(g)
  }

  /** The cell probe d looks at: the override replaces only the centre cell. */
  function ProbeIndex(g: Grid, pos: Vec2, distance: real, overrideCenter: int, d: int): (r: int)
    requires ProbeArgs(g, overrideCenter) && 0 <= d < NUM_MR_DIRS
    ensures 0 <= r < Cells(g)
  {
    var m := GetPureMapIndexAt(g, ProbePos(pos, d, distance));
    if d == MR_DIR_HERE && overrideCenter >= 0 then overrideCenter else m
  }

  /** What one layer of one probe cell contributes: the game layer, or the front layer. */
  function LayerRestriction(g: Grid, index: int, d: int, front: bool): bv32
    requires ValidGrid(g) && g.tiles.Some? && 0 <= index < Cells(g) && 0 <= d < NUM_MR_DIRS
  {
    if !front then Directional(d, GetTileIndex(g, index), GetTileFlags(g, index))
    else Directional(d, GetFTileIndex(g, index), GetFTileFlags(g, index))
  }

  /** The door layer's contribution: only when a callback says the door's switch is active. */
  function DoorRestriction(g: Grid, active: SwitchActive, index: int, d: int): bv32
    requires ValidGrid(g) && 0 <= index < Cells(g) && 0 <= d < NUM_MR_DIRS
  {
    if active.Some? && active.value(GetDTileNumber(g, index)) then
      Directional(d, GetDTileIndex(g, index), GetDTileFlags(g, index))
    else 0
  }

  /** Everything probe d contributes. */
  function Probe(g: Grid, active: SwitchActive, pos: Vec2, distance: real, overrideCenter: int, d: int): bv32
    requires ProbeArgs(g, overrideCenter) && 0 <= d < NUM_MR_DIRS
  {
    var index := ProbeIndex(g, pos, distance, overrideCenter, d);
    LayerRestriction(g, index, d, false) | LayerRestriction(g, index, d, true) | DoorRestriction(g, active, index, d)
  }

  /** The OR of a sequence of masks, accumulated from the front. */
  function OrAll(s: seq<bv32>): bv32
  {
    if |s| == 0 then 0 else OrAll(s[..|s| - 1]) | s[|s| - 1]
  }

  /** The contributions of the five probes, in probing order. */
  function Probes(g: Grid, active: SwitchActive, pos: Vec2, distance: real, overrideCenter: int): (r: seq<bv32>)
    requires ProbeArgs(g, overrideCenter)
    ensures |r| == NUM_MR_DIRS
    ensures forall d :: 0 <= d < NUM_MR_DIRS ==> r[d] == Probe(g, active, pos, distance, overrideCenter, d)
  {
    seq(NUM_MR_DIRS, d requires 0 <= d < NUM_MR_DIRS => Probe(g, active, pos, distance, overrideCenter, d))
  }

  /** The restriction mask at pos: the OR over all five probes. */
  function Restrictions(g: Grid, active: SwitchActive, pos: Vec2, distance: real, overrideCenter: int): bv32
    requires ProbeArgs(g, overrideCenter)
  {
    OrAll(Probes(g, active, pos, distance, overrideCenter))
  }

  /**
   * One probe of CCollision::GetMoveRestrictions: the contributions of the
   * game and the front layer of the probed cell and, when the callback says
   * the door's switch is active, of its door.
   */
  method ProbeCell(g: Grid, active: SwitchActive, index: int, d: int) returns (p: bv32)
    requires ValidGrid(g) && g.tiles.Some? && 0 <= index < Cells(g) && 0 <= d < NUM_MR_DIRS
    ensures p == LayerRestriction(g, index, d, false) | LayerRestriction(g, index, d, true) | DoorRestriction(g, active, index, d)
  {
    var layers: bv32 := 0;
    var front := 0;
    while front < 2
      invariant 0 <= front <= 2
      invariant front == 0 ==> layers == 0
      invariant front == 1 ==> layers == LayerRestriction(g, index, d, false)
      invariant front == 2 ==> layers == LayerRestriction(g, index, d, false) | LayerRestriction(g, index, d, true)
    {
      var tile, flags;
      if front == 0 {
        tile := GetTileIndex(g, index);
        flags := GetTileFlags(g, index);
      } else {
        tile := GetFTileIndex(g, index);
        flags := GetFTileFlags(g, index);
      }
      layers := layers | Directional(d, tile, flags);
      front := front + 1;
    }
    p := layers;
    if active.Some? {
      var teleNumber := GetDTileNumber(g, index);
      if active.value(teleNumber) {
        var tile := GetDTileIndex(g, index);
        var flags := GetDTileFlags(g, index);
        p := p | Directional(d, tile, flags);
      }
    }
  }

  /**
   * CCollision::GetMoveRestrictions: ORs together the contributions of the
   * five probes, the centre cell (or the override cell) and its four
   * neighbours at the given distance. The C++ code reads the game layer
   * unguarded, so it must be present; an override must name a cell.
   */
  method GetMoveRestrictions(g: Grid, active: SwitchActive, pos: Vec2, distance: real := DefaultDistance, overrideCenter: int := -1) returns (r: bv32)
    requires ProbeArgs(g, overrideCenter)
    requires 0.0 <= distance <= 32.0
    ensures r == Restrictions(g, active, pos, distance, overrideCenter)
  {
    ghost var probes := Probes(g, active, pos, distance, overrideCenter);
    r := 0;
    var d := 0;
    while d < NUM_MR_DIRS
      invariant 0 <= d <= NUM_MR_DIRS
      invariant r == OrAll(probes[..d])
    {
      var modPos := ProbePos(pos, d, distance);
      var modMapIndex := GetPureMapIndexAt(g, modPos);
      if d == MR_DIR_HERE && overrideCenter >= 0 {
        modMapIndex := overrideCenter;
      }
      var p := ProbeCell(g, active, modMapIndex, d);
      r := r | p;
      OrAllSnoc(probes, d);
      d := d + 1;
    }
    assert probes[..NUM_MR_DIRS] == probes;
  }

  /** The default probing distance of the short form of GetMoveRestrictions. */
  const DefaultDistance: real := 18.0

  /**
   * The short CCollision::GetMoveRestrictions(Pos, Distance): the full form
   * with no switch callback and no centre override.
   */
  method GetMoveRestrictionsAt(g: Grid, pos: Vec2, distance: real := DefaultDistance) returns (r: bv32)
    requires ValidGrid(g) && g.tiles.Some?
    requires 0.0 <= distance <= 32.0
    ensures r == Restrictions(g, None, pos, distance, -1)
    ensures r == Restrictions(g.(door := None), None, pos, distance, -1)
  {
    r := GetMoveRestrictions(g, None, pos, distance, -1);
    NoCallbackIgnoresDoors(g, pos, distance, -1);
  }

  /** Without a switch callback the door layer contributes nothing: the result is that of a grid without doors. */
  lemma NoCallbackIgnoresDoors(g: Grid, pos: Vec2, distance: real, overrideCenter: int)
    requires ProbeArgs(g, overrideCenter)
    ensures Restrictions(g, None, pos, distance, overrideCenter) == Restrictions(g.(door := None), None, pos, distance, overrideCenter)
  {
    var h := g.(door := None);
    var s := Probes(g, None, pos, distance, overrideCenter);
    var t := Probes(h, None, pos, distance, overrideCenter);
    forall d | 0 <= d < NUM_MR_DIRS
      ensures s[d] == t[d]
    {
      assert ProbeIndex(g, pos, distance, overrideCenter, d) == ProbeIndex(h, pos, distance, overrideCenter, d);
    }
    assert s == t;
  }

  lemma OrAllSnoc(s: seq<bv32>, i: int)
    requires 0 <= i < |s|
    ensures OrAll(s[..i + 1]) == OrAll(s[..i]) | s[i]
  {
    assert s[..i + 1][..i] == s[..i];
  }

  /** Every element of a sequence of masks is within their OR. */
  lemma {:induction false} ElementWithinOrAll(s: seq<bv32>, i: int)
    requires 0 <= i < |s|
    ensures Within(s[i], OrAll(s))
  {
    var init := s[..|s| - 1];
    if i < |s| - 1 {
      assert init[i] == s[i];
      ElementWithinOrAll(init, i);
      WithinOr(s[i], OrAll(init), s[|s| - 1]);
    } else {
      WithinOr(s[i], s[|s| - 1], OrAll(init));
    }
  }

  /** The OR of masks that are all within m is within m. */
  lemma {:induction false} OrAllWithin(s: seq<bv32>, m: bv32)
    requires forall i :: 0 <= i < |s| ==> Within(s[i], m)
    ensures Within(OrAll(s), m)
  {
    if |s| > 0 {
      var init := s[..|s| - 1];
      assert forall i :: 0 <= i < |init| ==> init[i] == s[i];
      OrAllWithin(init, m);
      OrWithin(OrAll(init), s[|s| - 1], m);
    }
  }

  /** OR is monotone: pointwise smaller masks have a smaller OR. */
  lemma {:induction false} OrAllMonotone(s: seq<bv32>, t: seq<bv32>)
    requires |s| == |t|
    requires forall i :: 0 <= i < |s| ==> Within(s[i], t[i])
    ensures Within(OrAll(s), OrAll(t))
  {
    if |s| > 0 {
      var si, ti := s[..|s| - 1], t[..|t| - 1];
      assert forall i :: 0 <= i < |si| ==> si[i] == s[i] && ti[i] == t[i];
      OrAllMonotone(si, ti);
      var a, b := OrAll(si), OrAll(ti);
      assert Within(a | s[|s| - 1], b | t[|t| - 1]) by {
        WithinOr(a, b, t[|t| - 1]);
        WithinOr(s[|s| - 1], t[|t| - 1], b);
        OrWithin(a, s[|s| - 1], b | t[|t| - 1]);
      }
    }
  }

  /** The OR of all-zero masks is zero. */
  lemma {:induction false} OrAllZero(s: seq<bv32>)
    requires forall i :: 0 <= i < |s| ==> s[i] == 0
    ensures OrAll(s) == 0
  {
    if |s| > 0 {
      var init := s[..|s| - 1];
      assert forall i :: 0 <= i < |init| ==> init[i] == s[i];
      OrAllZero(init);
    }
  }

  /** A probe restricts only the four CANTMOVE bits. */
  lemma ProbeWithinAll(g: Grid, active: SwitchActive, pos: Vec2, distance: real, overrideCenter: int, d: int)
    requires ProbeArgs(g, overrideCenter) && 0 <= d < NUM_MR_DIRS
    ensures Within(Probe(g, active, pos, distance, overrideCenter, d), CANTMOVE_ALL)
  {
    var index := ProbeIndex(g, pos, distance, overrideCenter, d);
    var a := LayerRestriction(g, index, d, false);
    var b := LayerRestriction(g, index, d, true);
    var c := DoorRestriction(g, active, index, d);
    OrWithin(a, b, CANTMOVE_ALL);
    OrWithin(a | b, c, CANTMOVE_ALL);
  }

  /** A probe other than the centre one restricts at most its own direction's bit. */
  lemma ProbeWithinMask(g: Grid, active: SwitchActive, pos: Vec2, distance: real, overrideCenter: int, d: int)
    requires ProbeArgs(g, overrideCenter) && 0 < d < NUM_MR_DIRS
    ensures Within(Probe(g, active, pos, distance, overrideCenter, d), Mask(d))
  {
    var index := ProbeIndex(g, pos, distance, overrideCenter, d);
    var a := LayerRestriction(g, index, d, false);
    var b := LayerRestriction(g, index, d, true);
    var c := DoorRestriction(g, active, index, d);
    OrWithin(a, b, Mask(d));
    OrWithin(a | b, c, Mask(d));
  }

  /** A restriction mask only ever holds the four CANTMOVE bits. */
  lemma RestrictionsWithinAll(g: Grid, active: SwitchActive, pos: Vec2, distance: real, overrideCenter: int)
    requires ProbeArgs(g, overrideCenter)
    ensures Within(Restrictions(g, active, pos, distance, overrideCenter), CANTMOVE_ALL)
  {
    var ps := Probes(g, active, pos, distance, overrideCenter);
    forall d | 0 <= d < |ps|
      ensures Within(ps[d], CANTMOVE_ALL)
    {
      ProbeWithinAll(g, active, pos, distance, overrideCenter, d);
    }
    OrAllWithin(ps, CANTMOVE_ALL);
  }

  /**
   * The door layer only ever adds restrictions: with any callback the mask
   * contains the mask without one, and a callback that is active on more
   * switch numbers gives a larger mask.
   */
  lemma RestrictionsMonotone(g: Grid, a1: SwitchActive, a2: SwitchActive, pos: Vec2, distance: real, overrideCenter: int)
    requires ProbeArgs(g, overrideCenter)
    requires a1.Some? ==> a2.Some? && forall k :: a1.value(k) ==> a2.value(k)
    ensures Within(Restrictions(g, a1, pos, distance, overrideCenter), Restrictions(g, a2, pos, distance, overrideCenter))
  {
    var s, t := Probes(g, a1, pos, distance, overrideCenter), Probes(g, a2, pos, distance, overrideCenter);
    forall d | 0 <= d < |s|
      ensures Within(s[d], t[d])
    {
      var index := ProbeIndex(g, pos, distance, overrideCenter, d);
      var a := LayerRestriction(g, index, d, false);
      var b := LayerRestriction(g, index, d, true);
      var c1 := DoorRestriction(g, a1, index, d);
      var c2 := DoorRestriction(g, a2, index, d);
      assert c1 == 0 || c1 == c2;
      assert Within(a | b | c1, a | b | c2);
    }
    OrAllMonotone(s, t);
  }

  /**
   * A stopper in the game layer of the cell one probe distance to the right
   * whose table includes CANTMOVE_RIGHT makes moving right impossible.
   */
  lemma StopperToTheRightBlocks(g: Grid, active: SwitchActive, pos: Vec2, distance: real, overrideCenter: int)
    requires ProbeArgs(g, overrideCenter)
    requires var i := GetPureMapIndexAt(g, ProbePos(pos, MR_DIR_RIGHT, distance));
      Raw(g.tiles.value[i].index, g.tiles.value[i].flags) & CANTMOVE_RIGHT != 0
    ensures Restrictions(g, active, pos, distance, overrideCenter) & CANTMOVE_RIGHT != 0
  {
    var ps := Probes(g, active, pos, distance, overrideCenter);
    ElementWithinOrAll(ps, MR_DIR_RIGHT);
    assert ps[MR_DIR_RIGHT] & CANTMOVE_RIGHT != 0;
  }

  /** No stopper in the game, front or door layer of a cell. */
  predicate NoStopper(g: Grid, index: int)
    requires ValidGrid(g) && g.tiles.Some? && 0 <= index < Cells(g)
  {
    var s := [TILE_STOP, TILE_STOPS, TILE_STOPA];
    g.tiles.value[index].index !in s &&
    (g.front.Some? ==> g.front.value[index].index !in s) &&
    (g.door.Some? ==> g.door.value[index].index !in s)
  }

  /** Without a stopper in any probed cell nothing is restricted. */
  lemma NoStoppersNoRestrictions(g: Grid, active: SwitchActive, pos: Vec2, distance: real, overrideCenter: int)
    requires ProbeArgs(g, overrideCenter)
    requires forall d :: 0 <= d < NUM_MR_DIRS ==> NoStopper(g, ProbeIndex(g, pos, distance, overrideCenter, d))
    ensures Restrictions(g, active, pos, distance, overrideCenter) == 0
  {
    var ps := Probes(g, active, pos, distance, overrideCenter);
    forall d | 0 <= d < |ps|
      ensures ps[d] == 0
    {
      var index := ProbeIndex(g, pos, distance, overrideCenter, d);
      assert NoStopper(g, index);
      var t0, t1, t2 := GetTileIndex(g, index), GetFTileIndex(g, index), GetDTileIndex(g, index);
      assert t0 !in [TILE_STOP, TILE_STOPS, TILE_STOPA];
      assert t1 !in [TILE_STOP, TILE_STOPS, TILE_STOPA];
      assert t2 !in [TILE_STOP, TILE_STOPS, TILE_STOPA];
      assert LayerRestriction(g, index, d, false) == 0;
      assert LayerRestriction(g, index, d, true) == 0;
      assert DoorRestriction(g, active, index, d) == 0;
    }
    OrAllZero(ps);
  }

  /**
   * ClampVel: a velocity component pointing into a restricted direction is
   * zeroed; every other component is kept.
   */
  function ClampVel(mr: bv32, vel: Vec2): (r: Vec2)
    ensures r.x == 0.0 || r.x == vel.x
    ensures r.y == 0.0 || r.y == vel.y
    ensures r.x != vel.x <==> (vel.x > 0.0 && mr & CANTMOVE_RIGHT != 0) || (vel.x < 0.0 && mr & CANTMOVE_LEFT != 0)
    ensures r.y != vel.y <==> (vel.y > 0.0 && mr & CANTMOVE_DOWN != 0) || (vel.y < 0.0 && mr & CANTMOVE_UP != 0)
    ensures (mr & CANTMOVE_RIGHT != 0 ==> r.x <= 0.0) && (mr & CANTMOVE_LEFT != 0 ==> r.x >= 0.0)
    ensures (mr & CANTMOVE_DOWN != 0 ==> r.y <= 0.0) && (mr & CANTMOVE_UP != 0 ==> r.y >= 0.0)
  {
    var x := if (vel.x > 0.0 && mr & CANTMOVE_RIGHT != 0) || (vel.x < 0.0 && mr & CANTMOVE_LEFT != 0) then 0.0 else vel.x;
    var y := if (vel.y > 0.0 && mr & CANTMOVE_DOWN != 0) || (vel.y < 0.0 && mr & CANTMOVE_UP != 0) then 0.0 else vel.y;
    Vec2(x, y)
  }

  /** ClampVel never reverses a component, leaves an unrestricted velocity alone and is idempotent. */
  lemma ClampVelProperties(mr: bv32, vel: Vec2)
    ensures var r := ClampVel(mr, vel);
      (vel.x >= 0.0 ==> r.x >= 0.0) && (vel.x <= 0.0 ==> r.x <= 0.0) &&
      (vel.y >= 0.0 ==> r.y >= 0.0) && (vel.y <= 0.0 ==> r.y <= 0.0)
    ensures ClampVel(0, vel) == vel
    ensures ClampVel(mr, ClampVel(mr, vel)) == ClampVel(mr, vel)
  {
  }
}
