/**
 * CMovingTileData: an animated quad that carries the payload of one static
 * tile, and the payload predicates the collision queries ask of it.
 */
module MovingTiles {
  import opened Arith
  import opened Tiles

  /**
   * CMovingTile: the static tile record a moving quad stands for. With
   * `skip == 0` it is a game tile (`index`, rotation in `reserved`); with
   * `skip == 1` it is a teleporter whose type is `flags` and whose number is
   * `index`.
   */
  datatype MovingTile = MovingTile(index: int, flags: int, skip: int, reserved: int)

  /** The four authored corners (std::array<ivec2, 4>). */
  type AuthoredCorners = s: seq<Point> | |s| == 4
    witness [Point(0, 0), Point(0, 0), Point(0, 0), Point(0, 0)]

  /** The four animated corners of the current tick (std::array<vec2, 4>). */
  type Corners = s: seq<Vec2> | |s| == 4
    witness [Vec2(0.0, 0.0), Vec2(0.0, 0.0), Vec2(0.0, 0.0), Vec2(0.0, 0.0)]

  /** A triangle (std::array<vec2, 3>). */
  type Triangle = s: seq<Vec2> | |s| == 3
    witness [Vec2(0.0, 0.0), Vec2(0.0, 0.0), Vec2(0.0, 0.0)]

  datatype MovingTileData = MovingTileData(
    pos: AuthoredCorners,
    center: Point,
    posEnvOffset: int,
    startEnvPoint: int,
    numEnvPoints: int,
    parallaxX: int,
    parallaxY: int,
    offsetX: int,
    offsetY: int,
    movingTile: MovingTile,
    currentPos: Corners,
    triangulationPattern: bool)

  /** The six tile ids a moving quad blocks with. */
  predicate IsBlockingIndex(index: int)
  {
    index == TILE_SOLID || index == TILE_NOHOOK || index == TILE_THROUGH_CUT
    || index == TILE_THROUGH_ALL || index == TILE_THROUGH_DIR || index == TILE_THROUGH
  }

  /**
   * The corner indices of the two triangles Triangulate builds; the pattern
   * chooses the diagonal the quad is split along.
   */
  function TriangleIndices(pattern: bool): (r: (seq<int>, seq<int>))
    ensures |r.0| == 3 && |r.1| == 3
    ensures forall k :: 0 <= k < 3 ==> 0 <= r.0[k] < 4 && 0 <= r.1[k] < 4
    ensures r.0[0] != r.0[1] && r.0[1] != r.0[2] && r.0[0] != r.0[2]
    ensures r.1[0] != r.1[1] && r.1[1] != r.1[2] && r.1[0] != r.1[2]
    ensures forall c :: 0 <= c < 4 ==> c in r.0 || c in r.1
    ensures pattern ==> (set c | c in r.0 && c in r.1) == {1, 2}
    ensures !pattern ==> (set c | c in r.0 && c in r.1) == {0, 3}
    ensures pattern ==> r.0[0] == 3 && r.0[1] == 2 && r.0[2] == 1 && r.1[0] == 1 && r.1[1] == 2 && r.1[2] == 0
    ensures !pattern ==> r.0[0] == 1 && r.0[1] == 3 && r.0[2] == 0 && r.1[0] == 0 && r.1[1] == 3 && r.1[2] == 2
  {
    if pattern then ([3, 2, 1], [1, 2, 0]) else ([1, 3, 0], [0, 3, 2])
  }

  /**
   * CMovingTileData::Triangulate: the two triangles of the current corners,
   * split along the diagonal the stored pattern selects.
   */
  function Triangulate(t: MovingTileData): (r: (Triangle, Triangle))
    ensures forall k :: 0 <= k < 3 ==> r.0[k] in t.currentPos && r.1[k] in t.currentPos
    ensures forall c :: 0 <= c < 4 ==> t.currentPos[c] in r.0 || t.currentPos[c] in r.1
    ensures t.triangulationPattern ==>
      t.currentPos[1] in r.0 && t.currentPos[2] in r.0 && t.currentPos[1] in r.1 && t.currentPos[2] in r.1
    ensures !t.triangulationPattern ==>
      t.currentPos[0] in r.0 && t.currentPos[3] in r.0 && t.currentPos[0] in r.1 && t.currentPos[3] in r.1
    ensures var p := t.currentPos; t.triangulationPattern ==> r.0 == [p[3], p[2], p[1]] && r.1 == [p[1], p[2], p[0]]
    ensures var p := t.currentPos; !t.triangulationPattern ==> r.0 == [p[1], p[3], p[0]] && r.1 == [p[0], p[3], p[2]]
  {
    var (a, b) := TriangleIndices(t.triangulationPattern);
    var p := t.currentPos;
    ([p[a[0]], p[a[1]], p[a[2]]], [p[b[0]], p[b[1]], p[b[2]]])
  }

  /** CMovingTileData::IsSolid. */
  predicate IsSolid(t: MovingTileData): (r: bool)
    ensures r ==> t.movingTile.skip == 0
    ensures t.movingTile.skip == 0 ==> (r <==> IsBlockingIndex(t.movingTile.index))
  {
    t.movingTile.skip == 0 && IsBlockingIndex(t.movingTile.index)
  }

  /**
   * CMovingTileData::IsThrough: a through-all quad lets everything pass; a
   * directional one lets a segment pass when it travels along the direction
   * its `reserved` rotation names.
   */
  predicate IsThrough(t: MovingTileData, pos0: Vec2, pos1: Vec2): (r: bool)
    ensures r ==> t.movingTile.skip == 0 && (t.movingTile.index == TILE_THROUGH_ALL || t.movingTile.index == TILE_THROUGH_DIR)
    ensures t.movingTile.skip == 0 && t.movingTile.index == TILE_THROUGH_ALL ==> r
    ensures t.movingTile.skip == 0 && t.movingTile.index == TILE_THROUGH_DIR ==>
      (r <==> (t.movingTile.reserved == 0 && pos0.y > pos1.y) || (t.movingTile.reserved == 1 && pos0.x < pos1.x) ||
              (t.movingTile.reserved == 2 && pos0.y < pos1.y) || (t.movingTile.reserved == 3 && pos0.x > pos1.x))
  {
    var m := t.movingTile;
    m.skip == 0 &&
    (m.index == TILE_THROUGH_ALL ||
     (m.index == TILE_THROUGH_DIR &&
      ((m.reserved == 0 && pos0.y > pos1.y) ||
       (m.reserved == 1 && pos0.x < pos1.x) ||
       (m.reserved == 2 && pos0.y < pos1.y) ||
       (m.reserved == 3 && pos0.x > pos1.x))))
  }

  /** A quad that lets a segment through is one of the solid kinds. */
  lemma ThroughIsSolid(t: MovingTileData, pos0: Vec2, pos1: Vec2)
    ensures IsThrough(t, pos0, pos1) ==> IsSolid(t)
  {
  }

  /**
   * A directional through-quad never lets a segment through in both
   * directions: reversing the segment closes it.
   */
  lemma ThroughDirIsOneWay(t: MovingTileData, pos0: Vec2, pos1: Vec2)
    requires t.movingTile.index == TILE_THROUGH_DIR
    ensures !(IsThrough(t, pos0, pos1) && IsThrough(t, pos1, pos0))
  {
  }

  /**
   * CMovingTileData::GetTileIndex: the tile id of a game-tile payload, the
   * teleporter type of a teleporter payload; any other skip value is an
   * assertion failure.
   */
  function GetTileIndex(t: MovingTileData): (r: int)
    requires t.movingTile.skip == 0 || t.movingTile.skip == 1
    ensures IsSolid(t) ==> IsBlockingIndex(r)
    ensures t.movingTile.skip == 0 ==> r == t.movingTile.index
    ensures t.movingTile.skip == 1 ==> r == t.movingTile.flags
  {
    if t.movingTile.skip == 0 then t.movingTile.index else t.movingTile.flags
  }

  /**
   * CMovingTileData::GetTeleportNumber: the teleporter number when the
   * payload is a teleporter of the asked type, otherwise 0.
   */
  function GetTeleportNumber(t: MovingTileData, kind: int): (r: int)
    ensures r != 0 ==> t.movingTile.skip == 1 && t.movingTile.flags == kind && r == t.movingTile.index
    ensures t.movingTile.skip == 1 && t.movingTile.flags == kind ==> r == t.movingTile.index
  {
    if t.movingTile.skip == 1 && t.movingTile.flags == kind then t.movingTile.index else 0
  }

  /** A game-tile payload is never a teleporter, and a teleporter payload is never solid. */
  lemma SolidAndTeleportExclusive(t: MovingTileData, kind: int)
    ensures IsSolid(t) ==> GetTeleportNumber(t, kind) == 0
    ensures GetTeleportNumber(t, kind) != 0 ==> !IsSolid(t)
  {
  }
}
