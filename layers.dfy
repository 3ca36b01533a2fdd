/**
 * The static tile grid of CCollision and its read-only queries. The grid is
 * a value: the map's width and height and the row-major layer arrays, each
 * layer but the game layer possibly absent (a null pointer in the C++ code).
 * Every const query of CCollision over the grid is a function of this value.
 */
module Layers {
  import opened Arith
  import opened Tiles
  import opened Wrappers
  import MovingTiles

  /** Side length of a tile in world units. */
  const TileSize: int := 32

  datatype Grid = Grid(
    width: int,
    height: int,
    tiles: Option<seq<Tile>>,
    front: Option<seq<Tile>>,
    tele: Option<seq<TeleTile>>,
    speedup: Option<seq<SpeedupTile>>,
    switches: Option<seq<SwitchTile>>,
    tune: Option<seq<TuneTile>>,
    door: Option<seq<DoorTile>>)

  function Cells(g: Grid): int { g.width * g.height }

  predicate Populated(g: Grid) { g.width > 0 && g.height > 0 }

  predicate LayerFits<T>(g: Grid, layer: Option<seq<T>>)
  {
    layer.Some? ==> Populated(g) && |layer.value| == Cells(g)
  }

  /** Every present layer holds exactly one record per cell of a non-empty grid. */
  predicate ValidGrid(g: Grid)
  {
    g.width >= 0 && g.height >= 0 &&
    LayerFits(g, g.tiles) && LayerFits(g, g.front) && LayerFits(g, g.tele) &&
    LayerFits(g, g.speedup) && LayerFits(g, g.switches) && LayerFits(g, g.tune) &&
    LayerFits(g, g.door)
  }

  /** The grid of a freshly constructed or destroyed CCollision. */
  const EmptyGrid: Grid := Grid(0, 0, None, None, None, None, None, None, None)

  /** `y * W + x` stays inside a W*H grid for an in-range cell. */
  lemma RowMajorInRange(x: int, y: int, w: int, h: int)
    requires 0 <= x < w && 0 <= y < h
    ensures 0 <= y * w + x < w * h
    ensures (y * w + x) % w == x && (y * w + x) / w == y
  {
    MulLe(y, h - 1, w);
    assert (h - 1) * w + w == w * h;
    DivModUnique(y, x, w);
  }

  lemma MulLe(a: int, b: int, w: int)
    requires a <= b && w >= 0
    ensures a * w <= b * w
  {
    assert b * w - a * w == (b - a) * w;
  }

  /** Euclidean division recovers quotient and remainder of `q * w + r`. */
  lemma DivModUnique(q: int, r: int, w: int)
    requires 0 <= r < w
    ensures (q * w + r) / w == q && (q * w + r) % w == r
  {
    var n := q * w + r;
    var q', r' := n / w, n % w;
    assert q' * w + r' == q * w + r;
    assert (q' - q) * w == r - r';
    if q' > q {
      MulLe(1, q' - q, w);
    } else if q' < q {
      MulLe(1, q - q', w);
    }
  }

  /** The clamped column of world coordinate x (cell coordinates use C++ `x / 32`). */
  function Column(g: Grid, x: int): int { Clamp(TruncDiv(x, TileSize), 0, g.width - 1) }

  /** The clamped row of world coordinate y. */
  function Row(g: Grid, y: int): int { Clamp(TruncDiv(y, TileSize), 0, g.height - 1) }

  /**
   * The row-major index of the clamped cell under integer world coordinates
   * `(x, y)`, as GetTile, GetFTile, IsMover and SetCollisionAt compute it.
   */
  function CellIndex(g: Grid, x: int, y: int): (r: int)
    ensures Populated(g) ==> 0 <= r < Cells(g)
  {
    var nx := Column(g, x);
    var ny := Row(g, y);
    if Populated(g) then
      RowMajorInRange(nx, ny, g.width, g.height);
      ny * g.width + nx
    else
      ny * g.width + nx
  }

  /** The cell index encodes the clamped column and row: both can be read back. */
  lemma CellIndexCoordinates(g: Grid, x: int, y: int)
    requires Populated(g)
    ensures CellIndex(g, x, y) % g.width == Column(g, x) && CellIndex(g, x, y) / g.width == Row(g, y)
  {
    RowMajorInRange(Column(g, x), Row(g, y), g.width, g.height);
  }

  /**
   * For coordinates off the grid, the cell is that of the nearest on-grid
   * coordinates: clamping the coordinates first changes nothing.
   */
  lemma CellIndexClampsToEdge(g: Grid, x: int, y: int)
    requires Populated(g)
    ensures CellIndex(g, x, y) == CellIndex(g, Clamp(x, 0, TileSize * g.width - 1), Clamp(y, 0, TileSize * g.height - 1))
  {
    ClampCoordinate(x, g.width);
    ClampCoordinate(y, g.height);
  }

  lemma ClampCoordinate(x: int, n: int)
    requires n > 0
    ensures Clamp(TruncDiv(x, TileSize), 0, n - 1) == Clamp(TruncDiv(Clamp(x, 0, TileSize * n - 1), TileSize), 0, n - 1)
  {
    var c := Clamp(x, 0, TileSize * n - 1);
    if x < 0 {
      assert c == 0;
    } else if x > TileSize * n - 1 {
      assert TruncDiv(c, TileSize) == n - 1;
      assert TruncDiv(x, TileSize) >= n;
    }
  }

  /** Every world coordinate inside cell (cx, cy) of the grid maps to that cell's index. */
  lemma CellIndexOfCell(g: Grid, cx: int, cy: int, x: int, y: int)
    requires 0 <= cx < g.width && 0 <= cy < g.height
    requires TileSize * cx <= x < TileSize * cx + TileSize
    requires TileSize * cy <= y < TileSize * cy + TileSize
    ensures CellIndex(g, x, y) == cy * g.width + cx
  {
    assert TruncDiv(x, TileSize) == cx;
    assert TruncDiv(y, TileSize) == cy;
  }

  /** CCollision::GetPureMapIndex(float, float): the clamped cell under the rounded coordinates. */
  function GetPureMapIndex(g: Grid, x: real, y: real): (r: int)
    ensures Populated(g) ==> 0 <= r < Cells(g)
    ensures r == CellIndex(g, RoundToInt(x), RoundToInt(y))
  {
    CellIndex(g, RoundToInt(x), RoundToInt(y))
  }

  /** CCollision::GetPureMapIndex(vec2). */
  function GetPureMapIndexAt(g: Grid, pos: Vec2): (r: int)
    ensures Populated(g) ==> 0 <= r < Cells(g)
    ensures r == GetPureMapIndex(g, pos.x, pos.y)
  {
    GetPureMapIndex(g, pos.x, pos.y)
  }

  /**
   * CCollision::GetPos: the centre of the cell with the given index, or the
   * origin for a negative index. CCollision::GetPos divides by the width, so a
   * non-negative index needs a grid with columns.
   */
  function GetPos(g: Grid, index: int): (r: Vec2)
    requires index < 0 || g.width > 0
    ensures index < 0 ==> r == Vec2(0.0, 0.0)
    ensures index >= 0 ==>
      exists cx: int, cy: int ::
        && 0 <= cx < g.width && cy >= 0 && index == cy * g.width + cx
        && r == Vec2((cx * TileSize + TileSize / 2) as real, (cy * TileSize + TileSize / 2) as real)
  {
    if index < 0 then Vec2(0.0, 0.0)
    else
      var cx := index % g.width;
      var cy := index / g.width;
      assert index == cy * g.width + cx;
      Vec2((cx * TileSize + 16) as real, (cy * TileSize + 16) as real)
  }

  /**
   * GetPos is a right inverse of GetPureMapIndex on the grid: the centre of
   * every cell maps back to that cell.
   */
  lemma PosRoundTrip(g: Grid, index: int)
    requires Populated(g) && 0 <= index < Cells(g)
    ensures GetPureMapIndexAt(g, GetPos(g, index)) == index
  {
    var cx := index % g.width;
    var cy := index / g.width;
    assert index == cy * g.width + cx;
    assert cy < g.height;
    var p := GetPos(g, index);
    assert p == Vec2((cx * TileSize + 16) as real, (cy * TileSize + 16) as real);
    RoundInt(cx * TileSize + 16);
    RoundInt(cy * TileSize + 16);
    CellIndexOfCell(g, cx, cy, cx * TileSize + 16, cy * TileSize + 16);
  }

  // ---------------------------------------------------------------------
  // Game and front layer lookups by world coordinates

  /**
   * CCollision::GetTile: the collision tile of the clamped cell, 0 without a
   * game layer; only ids from TILE_SOLID to TILE_NOLASER are reported.
   */
  function GetTile(g: Grid, x: int, y: int): (r: int)
    requires ValidGrid(g)
    ensures g.tiles.None? ==> r == 0
    ensures r == 0 || TILE_SOLID <= r <= TILE_NOLASER
    ensures g.tiles.Some? ==>
      var t := g.tiles.value[CellIndex(g, x, y)].index;
      (TILE_SOLID <= t <= TILE_NOLASER ==> r == t) && (!(TILE_SOLID <= t <= TILE_NOLASER) ==> r == 0)
  {
    if g.tiles.None? then 0
    else
      var t := g.tiles.value[CellIndex(g, x, y)].index;
      if TILE_SOLID <= t <= TILE_NOLASER then t else 0
  }

  /** CCollision::IsSolid: the clamped cell holds a solid or an unhookable tile. */
  function IsSolid(g: Grid, x: int, y: int): (r: bool)
    requires ValidGrid(g)
    ensures r <==> (g.tiles.Some? &&
      (g.tiles.value[CellIndex(g, x, y)].index == TILE_SOLID || g.tiles.value[CellIndex(g, x, y)].index == TILE_NOHOOK))
  {
    var t := GetTile(g, x, y);
    t == TILE_SOLID || t == TILE_NOHOOK
  }

  /** CCollision::CheckPoint(float, float): IsSolid at the rounded coordinates. */
  function CheckPoint(g: Grid, x: real, y: real): (r: bool)
    requires ValidGrid(g)
    ensures r <==> (g.tiles.Some? &&
      (g.tiles.value[GetPureMapIndex(g, x, y)].index == TILE_SOLID || g.tiles.value[GetPureMapIndex(g, x, y)].index == TILE_NOHOOK))
  {
    IsSolid(g, RoundToInt(x), RoundToInt(y))
  }

  /** CCollision::CheckPoint(vec2). */
  function CheckPointAt(g: Grid, pos: Vec2): (r: bool)
    requires ValidGrid(g)
    ensures r <==> (g.tiles.Some? &&
      (g.tiles.value[GetPureMapIndexAt(g, pos)].index == TILE_SOLID || g.tiles.value[GetPureMapIndexAt(g, pos)].index == TILE_NOHOOK))
  {
    CheckPoint(g, pos.x, pos.y)
  }

  /** CCollision::GetCollisionAt: GetTile at the rounded coordinates. */
  function GetCollisionAt(g: Grid, x: real, y: real): (r: int)
    requires ValidGrid(g)
    ensures r == 0 || TILE_SOLID <= r <= TILE_NOLASER
    ensures r != 0 ==> g.tiles.Some? && r == g.tiles.value[GetPureMapIndex(g, x, y)].index
    ensures r == 0 ==> g.tiles.None? || !(TILE_SOLID <= g.tiles.value[GetPureMapIndex(g, x, y)].index <= TILE_NOLASER)
  {
    GetTile(g, RoundToInt(x), RoundToInt(y))
  }

  /**
   * CCollision::GetFTile: the front tile of the clamped cell when it is a
   * death or no-laser tile, otherwise (or without a front layer) 0.
   */
  function GetFTile(g: Grid, x: int, y: int): (r: int)
    requires ValidGrid(g)
    ensures r == 0 || r == TILE_DEATH || r == TILE_NOLASER
    ensures g.front.None? ==> r == 0
    ensures g.front.Some? && r != 0 ==> r == g.front.value[CellIndex(g, x, y)].index
    ensures g.front.Some? && (g.front.value[CellIndex(g, x, y)].index == TILE_DEATH || g.front.value[CellIndex(g, x, y)].index == TILE_NOLASER)
      ==> r == g.front.value[CellIndex(g, x, y)].index
  {
    if g.front.None? then 0
    else
      var t := g.front.value[CellIndex(g, x, y)].index;
      if t == TILE_DEATH || t == TILE_NOLASER then t else 0
  }

  /** CCollision::GetFCollisionAt: GetFTile at the rounded coordinates. */
  function GetFCollisionAt(g: Grid, x: real, y: real): (r: int)
    requires ValidGrid(g)
    ensures r == 0 || r == TILE_DEATH || r == TILE_NOLASER
    ensures r != 0 ==> g.front.Some? && r == g.front.value[GetPureMapIndex(g, x, y)].index
    ensures var c := GetPureMapIndex(g, x, y);
      g.front.Some? && (g.front.value[c].index == TILE_DEATH || g.front.value[c].index == TILE_NOLASER) ==> r == g.front.value[c].index
  {
    GetFTile(g, RoundToInt(x), RoundToInt(y))
  }

  /** CCollision::IsNoLaser: the game tile of the clamped cell is a no-laser tile. */
  function IsNoLaser(g: Grid, x: int, y: int): (r: bool)
    requires ValidGrid(g)
    ensures r <==> g.tiles.Some? && g.tiles.value[CellIndex(g, x, y)].index == TILE_NOLASER
  {
    GetTile(g, x, y) == TILE_NOLASER
  }

  /** CCollision::IsFNoLaser: the front tile of the clamped cell is a no-laser tile. */
  function IsFNoLaser(g: Grid, x: int, y: int): (r: bool)
    requires ValidGrid(g)
    ensures r <==> g.front.Some? && g.front.value[CellIndex(g, x, y)].index == TILE_NOLASER
  {
    GetFTile(g, x, y) == TILE_NOLASER
  }

  /**
   * CCollision::GetIndex(int, int): the raw game tile id of an in-range
   * cell; CCollision::GetIndex does not clamp here.
   */
  function GetIndex(g: Grid, nx: int, ny: int): (r: uint8)
    requires ValidGrid(g) && g.tiles.Some?
    requires 0 <= nx < g.width && 0 <= ny < g.height
    ensures r == g.tiles.value[CellIndex(g, nx * TileSize, ny * TileSize)].index
  {
    RowMajorInRange(nx, ny, g.width, g.height);
    CellIndexOfCell(g, nx, ny, nx * TileSize, ny * TileSize);
    g.tiles.value[ny * g.width + nx].index
  }

  /** CCollision::GetFIndex: the raw front tile id of an in-range cell, 0 without a front layer. */
  function GetFIndex(g: Grid, nx: int, ny: int): (r: int)
    requires ValidGrid(g)
    requires g.front.Some? ==> 0 <= nx < g.width && 0 <= ny < g.height
    ensures g.front.None? ==> r == 0
    ensures g.front.Some? ==> r == g.front.value[CellIndex(g, nx * TileSize, ny * TileSize)].index
  {
    if g.front.None? then 0
    else
      RowMajorInRange(nx, ny, g.width, g.height);
      CellIndexOfCell(g, nx, ny, nx * TileSize, ny * TileSize);
      g.front.value[ny * g.width + nx].index
  }

  // ---------------------------------------------------------------------
  // Lookups by cell index. A negative index or an absent layer gives the
  // neutral value; a non-negative index must name a cell of the grid.

  /** An index CCollision's callers may pass to a lookup on `layer`: negative, or a cell. */
  predicate IndexFor<T>(g: Grid, layer: Option<seq<T>>, index: int)
  {
    index < 0 || layer.None? || index < Cells(g)
  }

  /** CCollision::GetTileIndex: the game tile id; the game layer is read unguarded. */
  function GetTileIndex(g: Grid, index: int): (r: int)
    requires ValidGrid(g) && index < Cells(g) && (index >= 0 ==> g.tiles.Some?)
    ensures 0 <= r < 256
    ensures index < 0 ==> r == 0
    ensures index >= 0 ==> r == g.tiles.value[index].index
  {
    if index < 0 then 0 else g.tiles.value[index].index
  }

  /** CCollision::GetTileFlags: the game tile flags. */
  function GetTileFlags(g: Grid, index: int): (r: int)
    requires ValidGrid(g) && index < Cells(g) && (index >= 0 ==> g.tiles.Some?)
    ensures 0 <= r < 256
    ensures index < 0 ==> r == 0
    ensures index >= 0 ==> r == g.tiles.value[index].flags
  {
    if index < 0 then 0 else g.tiles.value[index].flags
  }

  /** CCollision::GetFTileIndex: the front tile id, 0 without a front layer. */
  function GetFTileIndex(g: Grid, index: int): (r: int)
    requires ValidGrid(g) && IndexFor(g, g.front, index)
    ensures 0 <= r < 256
    ensures index < 0 || g.front.None? ==> r == 0
    ensures index >= 0 && g.front.Some? ==> r == g.front.value[index].index
  {
    if index < 0 || g.front.None? then 0 else g.front.value[index].index
  }

  /** CCollision::GetFTileFlags: the front tile flags, 0 without a front layer. */
  function GetFTileFlags(g: Grid, index: int): (r: int)
    requires ValidGrid(g) && IndexFor(g, g.front, index)
    ensures 0 <= r < 256
    ensures index < 0 || g.front.None? ==> r == 0
    ensures index >= 0 && g.front.Some? ==> r == g.front.value[index].flags
  {
    if index < 0 || g.front.None? then 0 else g.front.value[index].flags
  }

  /**
   * Where a teleporter or time-checkpoint query looks: a cell of the static
   * grid, or the payload of a moving quad (a non-null CMovingTileData
   * pointer in CCollision, which then ignores the index).
   */
  datatype Where = AtCell(index: int) | OnMovingTile(tile: MovingTiles.MovingTileData)

  predicate WhereFor(g: Grid, w: Where)
  {
    w.OnMovingTile? || IndexFor(g, g.tele, w.index)
  }

  /** The looked-up teleporter has type `kind`. */
  predicate TeleKindAt(g: Grid, w: Where, kind: int)
    requires ValidGrid(g) && WhereFor(g, w)
  {
    match w
    case AtCell(index) => index >= 0 && g.tele.Some? && g.tele.value[index].kind == kind
    case OnMovingTile(t) => t.movingTile.skip == 1 && t.movingTile.flags == kind
  }

  /** The teleporter number stored where the query looks (a moving tile keeps it in its index). */
  function StoredTeleNumber(g: Grid, w: Where): int
    requires ValidGrid(g) && WhereFor(g, w)
  {
    match w
    case AtCell(index) => if index >= 0 && g.tele.Some? then g.tele.value[index].number else 0
    case OnMovingTile(t) => t.movingTile.index
  }

  /**
   * A teleporter query of type `kind` answers `r`: the stored number when
   * the teleporter there has that type, and 0 whenever it has not.
   */
  predicate ReportsTele(g: Grid, w: Where, kind: int, r: int)
    requires ValidGrid(g) && WhereFor(g, w)
  {
    (r != 0 ==> TeleKindAt(g, w, kind)) && (TeleKindAt(g, w, kind) ==> r == StoredTeleNumber(g, w))
  }

  /**
   * The shared shape of IsTeleport, IsEvilTeleport, IsCheckTeleport,
   * IsCheckEvilTeleport, IsTeleCheckpoint, IsTeleportWeapon and
   * IsTeleportHook: the teleporter number when the looked-up teleporter
   * has the asked type, otherwise 0.
   */
  function TeleNumber(g: Grid, w: Where, kind: int): (r: int)
    requires ValidGrid(g) && WhereFor(g, w)
    ensures w.AtCell? && (w.index < 0 || g.tele.None?) ==> r == 0
    ensures w.AtCell? && w.index >= 0 && g.tele.Some? ==>
      (g.tele.value[w.index].kind == kind ==> r == g.tele.value[w.index].number) &&
      (g.tele.value[w.index].kind != kind ==> r == 0)
    ensures w.OnMovingTile? ==> r == MovingTiles.GetTeleportNumber(w.tile, kind)
    ensures ReportsTele(g, w, kind, r)
  {
    match w
    case AtCell(index) =>
      if index < 0 || g.tele.None? then 0
      else if g.tele.value[index].kind == kind then g.tele.value[index].number
      else 0
    case OnMovingTile(t) => MovingTiles.GetTeleportNumber(t, kind)
  }

  /** CCollision::IsTeleport: the number of a plain teleporter (TELEIN) where the query looks, otherwise 0. */
  function IsTeleport(g: Grid, w: Where): (r: int)
    requires ValidGrid(g) && WhereFor(g, w)
    ensures w.AtCell? && (w.index < 0 || g.tele.None?) ==> r == 0
    ensures ReportsTele(g, w, TILE_TELEIN, r)
  {
    TeleNumber(g, w, TILE_TELEIN)
  }

  /** CCollision::IsEvilTeleport: the number of an evil teleporter (TELEINEVIL) where the query looks, otherwise 0. */
  function IsEvilTeleport(g: Grid, w: Where): (r: int)
    requires ValidGrid(g) && WhereFor(g, w)
    ensures w.AtCell? && (w.index < 0 || g.tele.None?) ==> r == 0
    ensures ReportsTele(g, w, TILE_TELEINEVIL, r)
  {
    TeleNumber(g, w, TILE_TELEINEVIL)
  }

  /** CCollision::IsCheckTeleport: the number of a checkpoint teleporter (TELECHECKIN) where the query looks, otherwise 0. */
  function IsCheckTeleport(g: Grid, w: Where): (r: int)
    requires ValidGrid(g) && WhereFor(g, w)
    ensures w.AtCell? && (w.index < 0 || g.tele.None?) ==> r == 0
    ensures ReportsTele(g, w, TILE_TELECHECKIN, r)
  {
    TeleNumber(g, w, TILE_TELECHECKIN)
  }

  /** CCollision::IsCheckEvilTeleport: the number of an evil checkpoint teleporter (TELECHECKINEVIL) where the query looks, otherwise 0. */
  function IsCheckEvilTeleport(g: Grid, w: Where): (r: int)
    requires ValidGrid(g) && WhereFor(g, w)
    ensures w.AtCell? && (w.index < 0 || g.tele.None?) ==> r == 0
    ensures ReportsTele(g, w, TILE_TELECHECKINEVIL, r)
  {
    TeleNumber(g, w, TILE_TELECHECKINEVIL)
  }

  /** CCollision::IsTeleCheckpoint: the number of a teleport checkpoint (TELECHECK) where the query looks, otherwise 0. */
  function IsTeleCheckpoint(g: Grid, w: Where): (r: int)
    requires ValidGrid(g) && WhereFor(g, w)
    ensures w.AtCell? && (w.index < 0 || g.tele.None?) ==> r == 0
    ensures ReportsTele(g, w, TILE_TELECHECK, r)
  {
    TeleNumber(g, w, TILE_TELECHECK)
  }

  /** CCollision::IsTeleportWeapon: the number of a weapon teleporter (TELEINWEAPON) on the cell, otherwise 0. */
  function IsTeleportWeapon(g: Grid, index: int): (r: int)
    requires ValidGrid(g) && IndexFor(g, g.tele, index)
    ensures index < 0 || g.tele.None? ==> r == 0
    ensures ReportsTele(g, AtCell(index), TILE_TELEINWEAPON, r)
  {
    TeleNumber(g, AtCell(index), TILE_TELEINWEAPON)
  }

  /** CCollision::IsTeleportHook: the number of a hook teleporter (TELEINHOOK) on the cell, otherwise 0. */
  function IsTeleportHook(g: Grid, index: int): (r: int)
    requires ValidGrid(g) && IndexFor(g, g.tele, index)
    ensures index < 0 || g.tele.None? ==> r == 0
    ensures ReportsTele(g, AtCell(index), TILE_TELEINHOOK, r)
  {
    TeleNumber(g, AtCell(index), TILE_TELEINHOOK)
  }

  /**
   * A cell holds at most one teleporter: of the seven teleporter queries
   * on one static cell, at most one answers with a number.
   */
  lemma TeleQueriesExclusive(g: Grid, index: int, k1: int, k2: int)
    requires ValidGrid(g) && IndexFor(g, g.tele, index)
    requires k1 != k2
    ensures TeleNumber(g, AtCell(index), k1) == 0 || TeleNumber(g, AtCell(index), k2) == 0
  {
  }

  /**
   * CCollision::IsSpeedup: the index itself when the cell's speedup has a
   * positive force, otherwise 0 (so a speedup on cell 0 reads as none).
   */
  function IsSpeedup(g: Grid, index: int): (r: int)
    requires ValidGrid(g) && IndexFor(g, g.speedup, index)
    ensures r == 0 || r == index
    ensures r != 0 ==> index > 0 && g.speedup.Some? && g.speedup.value[index].force > 0
    ensures index > 0 && g.speedup.Some? && g.speedup.value[index].force > 0 ==> r == index
  {
    if index < 0 || g.speedup.None? then 0
    else if g.speedup.value[index].force > 0 then index
    else 0
  }

  /** What CCollision::GetSpeedup writes: the angle in degrees, the force and the maximum speed. */
  datatype Speedup = Speedup(angle: int, force: int, maxSpeed: int)

  /**
   * CCollision::GetSpeedup: None when CCollision::GetSpeedup returns without writing
   * its outputs. The conversion of the angle to a direction vector is
   * floating-point and not modelled.
   */
  function GetSpeedup(g: Grid, index: int): (r: Option<Speedup>)
    requires ValidGrid(g) && IndexFor(g, g.speedup, index)
    ensures r.None? <==> index < 0 || g.speedup.None?
    ensures r.Some? ==> var s := g.speedup.value[index];
      r.value == Speedup(s.angle, s.force, s.maxSpeed)
  {
    if index < 0 || g.speedup.None? then None
    else
      var s := g.speedup.value[index];
      Some(Speedup(s.angle, s.force, s.maxSpeed))
  }

  /** CCollision::IsTune: the tune-zone number of a cell with a tune tile, otherwise 0. */
  function IsTune(g: Grid, index: int): (r: int)
    requires ValidGrid(g) && IndexFor(g, g.tune, index)
    ensures index < 0 || g.tune.None? ==> r == 0
    ensures index >= 0 && g.tune.Some? ==>
      r == (if g.tune.value[index].kind != 0 then g.tune.value[index].number else 0)
  {
    if index < 0 || g.tune.None? then 0
    else if g.tune.value[index].kind != 0 then g.tune.value[index].number
    else 0
  }

  /** CCollision::GetSwitchType: the switch type of the cell, 0 when there is none. */
  function GetSwitchType(g: Grid, index: int): (r: int)
    requires ValidGrid(g) && IndexFor(g, g.switches, index)
    ensures 0 <= r < 256
    ensures index < 0 || g.switches.None? ==> r == 0
    ensures index >= 0 && g.switches.Some? ==> r == g.switches.value[index].kind
  {
    if index < 0 || g.switches.None? then 0
    else if g.switches.value[index].kind > 0 then g.switches.value[index].kind
    else 0
  }

  /**
   * CCollision::GetSwitchNumber: the switch number, reported only for a cell
   * that has a switch type; otherwise 0.
   */
  function GetSwitchNumber(g: Grid, index: int): (r: int)
    requires ValidGrid(g) && IndexFor(g, g.switches, index)
    ensures 0 <= r < 256
    ensures r != 0 ==> GetSwitchType(g, index) != 0
    ensures index >= 0 && g.switches.Some? && g.switches.value[index].kind > 0 ==> r == g.switches.value[index].number
  {
    if index < 0 || g.switches.None? then 0
    else if g.switches.value[index].kind > 0 && g.switches.value[index].number > 0 then g.switches.value[index].number
    else 0
  }

  /** CCollision::GetSwitchDelay: the switch delay, reported only for a cell that has a switch type. */
  function GetSwitchDelay(g: Grid, index: int): (r: int)
    requires ValidGrid(g) && IndexFor(g, g.switches, index)
    ensures 0 <= r < 256
    ensures r != 0 ==> GetSwitchType(g, index) != 0
    ensures index >= 0 && g.switches.Some? && g.switches.value[index].kind > 0 ==> r == g.switches.value[index].delay
  {
    if index < 0 || g.switches.None? then 0
    else if g.switches.value[index].kind > 0 then g.switches.value[index].delay
    else 0
  }

  /** A door cell counts only when its index (tile id) is set. */
  predicate DoorSet(g: Grid, index: int)
    requires ValidGrid(g) && IndexFor(g, g.door, index)
  {
    index >= 0 && g.door.Some? && g.door.value[index].index != 0
  }

  /** CCollision::GetDTileIndex: the door tile id, 0 for a cell without a door. */
  function GetDTileIndex(g: Grid, index: int): (r: int)
    requires ValidGrid(g) && IndexFor(g, g.door, index)
    ensures r != 0 <==> DoorSet(g, index)
    ensures DoorSet(g, index) ==> r == g.door.value[index].index
  {
    if !DoorSet(g, index) then 0 else g.door.value[index].index
  }

  /** CCollision::GetDTileNumber: the door's switch number, 0 for a cell without a door. */
  function GetDTileNumber(g: Grid, index: int): (r: int)
    requires ValidGrid(g) && IndexFor(g, g.door, index)
    ensures !DoorSet(g, index) ==> r == 0
    ensures DoorSet(g, index) ==> r == g.door.value[index].number
  {
    if !DoorSet(g, index) then 0
    else if g.door.value[index].number != 0 then g.door.value[index].number
    else 0
  }

  /** CCollision::GetDTileFlags: the door's flags, 0 for a cell without a door. */
  function GetDTileFlags(g: Grid, index: int): (r: int)
    requires ValidGrid(g) && IndexFor(g, g.door, index)
    ensures 0 <= r < 256
    ensures !DoorSet(g, index) ==> r == 0
    ensures DoorSet(g, index) ==> r == g.door.value[index].flags
  {
    if !DoorSet(g, index) then 0 else g.door.value[index].flags
  }

  /** CCollision::IsWallJump: the game tile is a wall-jump tile; a negative index is never one. */
  function IsWallJump(g: Grid, index: int): (r: bool)
    requires ValidGrid(g) && index < Cells(g) && (index >= 0 ==> g.tiles.Some?)
    ensures r <==> index >= 0 && g.tiles.value[index].index == TILE_WALLJUMP
  {
    if index < 0 then false else g.tiles.value[index].index == TILE_WALLJUMP
  }

  /** The time-checkpoint number of a tile id, or -1 for other tiles. */
  function TimeCheckpointOf(t: int): (r: int)
    ensures -1 <= r <= TILE_TIME_CHECKPOINT_LAST - TILE_TIME_CHECKPOINT_FIRST
    ensures r >= 0 <==> TILE_TIME_CHECKPOINT_FIRST <= t <= TILE_TIME_CHECKPOINT_LAST
    ensures r >= 0 ==> t == TILE_TIME_CHECKPOINT_FIRST + r
  {
    if TILE_TIME_CHECKPOINT_FIRST <= t <= TILE_TIME_CHECKPOINT_LAST then t - TILE_TIME_CHECKPOINT_FIRST else -1
  }

  /**
   * CCollision::IsTimeCheckpoint: on the static grid, the checkpoint number
   * of the game tile or -1 (also for a negative index); on a moving quad the
   * C++ code answers `false`, i.e. 0, without consulting its payload.
   */
  function IsTimeCheckpoint(g: Grid, w: Where): (r: int)
    requires ValidGrid(g)
    requires w.AtCell? ==> w.index < Cells(g) && (w.index >= 0 ==> g.tiles.Some?)
    ensures w.AtCell? && w.index < 0 ==> r == -1
    ensures w.AtCell? && w.index >= 0 ==> r == TimeCheckpointOf(g.tiles.value[w.index].index)
    ensures w.OnMovingTile? ==> r == 0
  {
    match w
    case AtCell(index) => if index < 0 then -1 else TimeCheckpointOf(g.tiles.value[index].index)
    case OnMovingTile(_) => 0
  }

  /** CCollision::IsFTimeCheckpoint: the checkpoint number of the front tile, -1 without one. */
  function IsFTimeCheckpoint(g: Grid, index: int): (r: int)
    requires ValidGrid(g) && IndexFor(g, g.front, index)
    ensures index < 0 || g.front.None? ==> r == -1
    ensures index >= 0 && g.front.Some? ==> r == TimeCheckpointOf(g.front.value[index].index)
  {
    if index < 0 || g.front.None? then -1 else TimeCheckpointOf(g.front.value[index].index)
  }

  // ---------------------------------------------------------------------
  // Through tiles and hook blockers

  /** A segment from pos0 to pos1 travels along rotation `flags` of a directional tile. */
  predicate TravelsAlong(flags: int, pos0: Vec2, pos1: Vec2)
  {
    (flags == ROTATION_0 && pos0.y > pos1.y) || (flags == ROTATION_90 && pos0.x < pos1.x) ||
    (flags == ROTATION_180 && pos0.y < pos1.y) || (flags == ROTATION_270 && pos0.x > pos1.x)
  }

  /**
   * CCollision::IsThrough: the front layer lets the segment pass at the
   * cell (through-all, through-cut, or directional along the travel), or the
   * cell one offset away holds a one-way through tile in either layer.
   */
  function IsThrough(g: Grid, x: int, y: int, xoff: int, yoff: int, pos0: Vec2, pos1: Vec2): (r: bool)
    requires ValidGrid(g) && g.tiles.Some?
    ensures var pos := GetPureMapIndex(g, x as real, y as real);
      var off := GetPureMapIndex(g, (x + xoff) as real, (y + yoff) as real);
      r <==>
        (g.front.Some? && (g.front.value[pos].index == TILE_THROUGH_ALL || g.front.value[pos].index == TILE_THROUGH_CUT)) ||
        (g.front.Some? && g.front.value[pos].index == TILE_THROUGH_DIR && TravelsAlong(g.front.value[pos].flags, pos0, pos1)) ||
        g.tiles.value[off].index == TILE_THROUGH ||
        (g.front.Some? && g.front.value[off].index == TILE_THROUGH)
  {
    var pos := GetPureMapIndex(g, x as real, y as real);
    if g.front.Some? && (g.front.value[pos].index == TILE_THROUGH_ALL || g.front.value[pos].index == TILE_THROUGH_CUT) then true
    else if g.front.Some? && g.front.value[pos].index == TILE_THROUGH_DIR && TravelsAlong(g.front.value[pos].flags, pos0, pos1) then true
    else
      var off := GetPureMapIndex(g, (x + xoff) as real, (y + yoff) as real);
      g.tiles.value[off].index == TILE_THROUGH || (g.front.Some? && g.front.value[off].index == TILE_THROUGH)
  }

  /**
   * CCollision::IsHookBlocker: a through-all tile in either layer, or a
   * directional tile in either layer that the segment travels against.
   */
  function IsHookBlocker(g: Grid, x: int, y: int, pos0: Vec2, pos1: Vec2): (r: bool)
    requires ValidGrid(g) && g.tiles.Some?
    ensures var pos := GetPureMapIndex(g, x as real, y as real);
      r <==>
        g.tiles.value[pos].index == TILE_THROUGH_ALL ||
        (g.front.Some? && g.front.value[pos].index == TILE_THROUGH_ALL) ||
        (g.tiles.value[pos].index == TILE_THROUGH_DIR && TravelsAlong(g.tiles.value[pos].flags, pos1, pos0)) ||
        (g.front.Some? && g.front.value[pos].index == TILE_THROUGH_DIR && TravelsAlong(g.front.value[pos].flags, pos1, pos0))
  {
    var pos := GetPureMapIndex(g, x as real, y as real);
    if g.tiles.value[pos].index == TILE_THROUGH_ALL || (g.front.Some? && g.front.value[pos].index == TILE_THROUGH_ALL) then true
    else if g.tiles.value[pos].index == TILE_THROUGH_DIR &&
      ((g.tiles.value[pos].flags == ROTATION_0 && pos0.y < pos1.y) ||
       (g.tiles.value[pos].flags == ROTATION_90 && pos0.x > pos1.x) ||
       (g.tiles.value[pos].flags == ROTATION_180 && pos0.y > pos1.y) ||
       (g.tiles.value[pos].flags == ROTATION_270 && pos0.x < pos1.x)) then true
    else if g.front.Some? && g.front.value[pos].index == TILE_THROUGH_DIR &&
      ((g.front.value[pos].flags == ROTATION_0 && pos0.y < pos1.y) ||
       (g.front.value[pos].flags == ROTATION_90 && pos0.x > pos1.x) ||
       (g.front.value[pos].flags == ROTATION_180 && pos0.y > pos1.y) ||
       (g.front.value[pos].flags == ROTATION_270 && pos0.x < pos1.x)) then true
    else false
  }

  /**
   * A directional front tile that lets a segment pass blocks the hook on the
   * reversed segment, and vice versa: it lets through exactly what it
   * blocks in the other direction.
   */
  lemma ThroughDirAgainstHook(g: Grid, x: int, y: int, pos0: Vec2, pos1: Vec2)
    requires ValidGrid(g) && g.tiles.Some? && g.front.Some?
    requires g.front.value[GetPureMapIndex(g, x as real, y as real)].index == TILE_THROUGH_DIR
    requires TravelsAlong(g.front.value[GetPureMapIndex(g, x as real, y as real)].flags, pos0, pos1)
    ensures IsThrough(g, x, y, 0, 0, pos0, pos1)
    ensures IsHookBlocker(g, x, y, pos1, pos0)
  {
  }

  /**
   * ThroughOffset: one tile length along the dominant axis of pos0 - pos1,
   * pointing from pos1 back toward pos0 (ties go to the y axis).
   */
  function ThroughOffset(pos0: Vec2, pos1: Vec2): (r: Point)
    ensures (r.x == 0) != (r.y == 0)
    ensures r.x == 0 || r.x == TileSize || r.x == -TileSize
    ensures r.y == 0 || r.y == TileSize || r.y == -TileSize
    ensures r.x != 0 <==> Abs(pos0.x - pos1.x) > Abs(pos0.y - pos1.y)
    ensures r.x != 0 ==> (r.x < 0 <==> pos0.x < pos1.x)
    ensures r.y != 0 ==> (r.y < 0 <==> pos0.y < pos1.y)
  {
    var x := pos0.x - pos1.x;
    var y := pos0.y - pos1.y;
    if Abs(x) > Abs(y) then
      if x < 0.0 then Point(-32, 0) else Point(32, 0)
    else
      if y < 0.0 then Point(0, -32) else Point(0, 32)
  }

  // ---------------------------------------------------------------------
  // Speed-tile movers

  /** What CCollision::IsMover returns and writes: the mover tile id (or 0) and the cell's flags. */
  datatype Mover = Mover(index: int, flags: int)

  /** CCollision::IsMover: the game tile of the clamped cell when it is a mover (TILE_CP or TILE_CP_F). */
  function IsMover(g: Grid, x: int, y: int): (r: Mover)
    requires ValidGrid(g) && g.tiles.Some?
    ensures r.flags == g.tiles.value[CellIndex(g, x, y)].flags
    ensures r.index == TILE_CP || r.index == TILE_CP_F || r.index == 0
    ensures r.index != 0 <==> (g.tiles.value[CellIndex(g, x, y)].index == TILE_CP || g.tiles.value[CellIndex(g, x, y)].index == TILE_CP_F)
    ensures r.index != 0 ==> r.index == g.tiles.value[CellIndex(g, x, y)].index
  {
    var t := g.tiles.value[CellIndex(g, x, y)];
    Mover(if t.index == TILE_CP || t.index == TILE_CP_F then t.index else 0, t.flags)
  }

  /**
   * The speed of a slow mover facing rotation `flags`: 4 units up, right,
   * down or left for the four rotations; (0, 0) for any other flags.
   */
  function MoverDirection(flags: int): (r: Point)
    ensures r.x == 0 || r.y == 0
    ensures r == Point(0, 0) <==> !(flags == ROTATION_0 || flags == ROTATION_90 || flags == ROTATION_180 || flags == ROTATION_270)
    ensures r.y < 0 <==> flags == ROTATION_0
    ensures r.x > 0 <==> flags == ROTATION_90
    ensures r.y > 0 <==> flags == ROTATION_180
    ensures r.x < 0 <==> flags == ROTATION_270
    ensures r != Point(0, 0) ==> Abs((r.x + r.y) as real) == 4.0
  {
    if flags == ROTATION_0 then Point(0, -4)
    else if flags == ROTATION_90 then Point(4, 0)
    else if flags == ROTATION_180 then Point(0, 4)
    else if flags == ROTATION_270 then Point(-4, 0)
    else Point(0, 0)
  }

  /**
   * CCollision::CpSpeed: the speed of a mover tile, (0, 0) for a negative
   * id. For a non-negative id other than the two mover ids CCollision::CpSpeed
   * returns an uninitialised vector, so callers pass only those.
   */
  function CpSpeed(index: int, flags: int := 0): (r: Point)
    requires index < 0 || index == TILE_CP || index == TILE_CP_F
    ensures index < 0 ==> r == Point(0, 0)
    ensures index == TILE_CP ==> r == MoverDirection(flags)
    ensures index == TILE_CP_F ==> r == Point(4 * MoverDirection(flags).x, 4 * MoverDirection(flags).y)
  {
    if index < 0 then Point(0, 0)
    else
      var d := MoverDirection(flags);
      if index == TILE_CP_F then Point(d.x * 4, d.y * 4) else d
  }

  /**
   * A mover pushes along one axis only: a slow mover at speed 4, a fast
   * mover at 16, or not at all for a flag value that is no rotation.
   */
  lemma CpSpeedAxisAligned(index: int, flags: int)
    requires index == TILE_CP || index == TILE_CP_F
    ensures var r := CpSpeed(index, flags);
      var s := if index == TILE_CP then 4 else 16;
      (r.x == 0 || r.y == 0) &&
      (r == Point(0, 0) <==> !(flags == ROTATION_0 || flags == ROTATION_90 || flags == ROTATION_180 || flags == ROTATION_270)) &&
      (r != Point(0, 0) ==> Abs((r.x + r.y) as real) == s as real)
  {
  }
}
