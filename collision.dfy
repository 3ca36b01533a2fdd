/**
 * The stateful side of CCollision: the object that owns the layer arrays,
 * its construction, loading (Init), teardown (Dest) and in-place edits
 * (SetCollisionAt, SetDCollisionAt). Every const query reads the object
 * through its snapshot View(), a Layers.Grid value.
 */
module Collision {
  import opened Arith
  import opened Tiles
  import opened Wrappers
  import opened Layers

  // ---------------------------------------------------------------------
  // The switch/door derivation Init performs, on values.

  /** Switch types Init keeps as they are; other types up to TILE_NPH_ENABLE are cleared. */
  predicate KeptSwitchType(t: int)
  {
    (TILE_JUMP <= t <= TILE_SUBTRACT_TIME) || t == TILE_ALLOW_TELE_GUN || t == TILE_ALLOW_BLUE_TELE_GUN
  }

  /**
   * The type Init leaves in a switch cell: a type up to TILE_NPH_ENABLE
   * survives only when it is one of the kept types; a higher type is never
   * touched.
   */
  function NormalizeSwitchType(t: uint8): (r: uint8)
    ensures r == t || r == 0
    ensures r <= TILE_NPH_ENABLE ==> r == 0 || KeptSwitchType(r)
    ensures KeptSwitchType(t) || t > TILE_NPH_ENABLE ==> r == t
  {
    if t <= TILE_NPH_ENABLE then
      if KeptSwitchType(t) then t else 0
    else
      t
  }

  /** The switch layer with every type normalised; numbers, flags and delays untouched. */
  function NormalizedSwitches(s: seq<SwitchTile>): seq<SwitchTile>
  {
    seq(|s|, i requires 0 <= i < |s| => s[i].(kind := NormalizeSwitchType(s[i].kind)))
  }

  /** A zeroed door layer with each cell's switch number copied in. */
  function DoorsFor(s: seq<SwitchTile>): seq<DoorTile>
  {
    seq(|s|, i requires 0 <= i < |s| => ZeroDoor.(number := s[i].number))
  }

  /**
   * m_HighestSwitchNumber after the scan of s: the largest switch number,
   * or 0 when no number exceeds 0 (the scan starts from 0).
   */
  function MaxSwitchNumber(s: seq<SwitchTile>): (r: int)
    ensures r >= 0
    ensures forall i :: 0 <= i < |s| ==> s[i].number <= r
    ensures r == 0 || exists i :: 0 <= i < |s| && s[i].number == r
  {
    if |s| == 0 then 0
    else
      var m := MaxSwitchNumber(s[..|s| - 1]);
      if s[|s| - 1].number > m then s[|s| - 1].number else m
  }

  /** Scanning one more cell raises the running maximum to that cell's number if it is larger. */
  lemma MaxSwitchNumberStep(s: seq<SwitchTile>, i: int)
    requires 0 <= i < |s|
    ensures MaxSwitchNumber(s[..i + 1]) == if s[i].number > MaxSwitchNumber(s[..i]) then s[i].number else MaxSwitchNumber(s[..i])
  {
    assert s[..i + 1][..i] == s[..i];
  }

  /**
   * A layer the map supplies, attached only when its data holds at least
   * n records; only the first n are ever read.
   */
  function Attach<T>(layer: Option<seq<T>>, n: int): Option<seq<T>>
  {
    if layer.Some? && 0 <= n <= |layer.value| then Some(layer.value[..n]) else None
  }

  /** The switch layer Init attaches: the map's, with every type normalised. */
  function LoadedSwitches(switchLayer: Option<seq<SwitchTile>>, n: int): Option<seq<SwitchTile>>
  {
    var sw := Attach(switchLayer, n);
    if sw.Some? then Some(NormalizedSwitches(sw.value)) else None
  }

  /**
   * The door layer Init allocates: none without a switch layer, all zero
   * when the switch layer is too small to attach, otherwise numbered from it.
   */
  function LoadedDoors(switchLayer: Option<seq<SwitchTile>>, n: int): Option<seq<DoorTile>>
    requires n >= 0
  {
    var sw := Attach(switchLayer, n);
    if switchLayer.None? then None
    else if sw.None? then Some(seq(n, _ => ZeroDoor))
    else Some(DoorsFor(sw.value))
  }

  /**
   * The grid Init builds from a w*h game layer and the optional tele,
   * speedup, switch, tune and front layers. A door layer exists exactly when
   * the map has a switch layer, even one too small to attach.
   */
  function Loaded(w: int, h: int, game: seq<Tile>, tele: Option<seq<TeleTile>>,
                  speedup: Option<seq<SpeedupTile>>, switchLayer: Option<seq<SwitchTile>>,
                  tune: Option<seq<TuneTile>>, front: Option<seq<Tile>>): (r: Grid)
    requires w > 0 && h > 0 && |game| == w * h
    ensures ValidGrid(r)
    ensures r.width == w && r.height == h && r.tiles == Some(game)
    ensures r.door.Some? <==> switchLayer.Some?
    ensures r.switches.Some? <==> switchLayer.Some? && |switchLayer.value| >= w * h
    ensures r.tele.Some? <==> tele.Some? && |tele.value| >= w * h
    ensures r.front.Some? <==> front.Some? && |front.value| >= w * h
    ensures r.speedup.Some? <==> speedup.Some? && |speedup.value| >= w * h
    ensures r.tune.Some? <==> tune.Some? && |tune.value| >= w * h
    ensures r.tele.Some? ==> r.tele.value == tele.value[..w * h]
    ensures r.front.Some? ==> r.front.value == front.value[..w * h]
    ensures r.speedup.Some? ==> r.speedup.value == speedup.value[..w * h]
    ensures r.tune.Some? ==> r.tune.value == tune.value[..w * h]
  {
    var n := w * h;
    Grid(w, h, Some(game), Attach(front, n), Attach(tele, n), Attach(speedup, n),
         LoadedSwitches(switchLayer, n), Attach(tune, n), LoadedDoors(switchLayer, n))
  }

  /** The value m_HighestSwitchNumber holds after Init. */
  function LoadedHighest(w: int, h: int, switchLayer: Option<seq<SwitchTile>>): (r: int)
    ensures r >= 0
    ensures Attach(switchLayer, w * h).None? ==> r == 0
  {
    var sw := Attach(switchLayer, w * h);
    if sw.Some? then MaxSwitchNumber(sw.value) else 0
  }

  /**
   * After Init, every door cell carries its switch cell's number, keeps a
   * zero tile id and zero flags, and the switch numbers are the map's.
   */
  lemma LoadedDoorsFollowSwitches(w: int, h: int, game: seq<Tile>, tele: Option<seq<TeleTile>>,
                                  speedup: Option<seq<SpeedupTile>>, switchLayer: Option<seq<SwitchTile>>,
                                  tune: Option<seq<TuneTile>>, front: Option<seq<Tile>>)
    requires w > 0 && h > 0 && |game| == w * h
    requires switchLayer.Some? && |switchLayer.value| >= w * h
    ensures var g := Loaded(w, h, game, tele, speedup, switchLayer, tune, front);
      forall i :: 0 <= i < w * h ==>
        g.door.value[i] == DoorTile(0, 0, g.switches.value[i].number) &&
        g.switches.value[i].number == switchLayer.value[i].number &&
        g.switches.value[i].delay == switchLayer.value[i].delay &&
        g.switches.value[i].flags == switchLayer.value[i].flags
  {
    var g := Loaded(w, h, game, tele, speedup, switchLayer, tune, front);
    var s := switchLayer.value[..w * h];
    assert g.switches.value == NormalizedSwitches(s);
    assert g.door.value == DoorsFor(s);
  }

  /**
   * After Init, a switch type up to TILE_NPH_ENABLE is either one of the kept
   * types or 0, and any nonzero type is the one the map stored.
   */
  lemma LoadedSwitchTypesNormalized(w: int, h: int, game: seq<Tile>, tele: Option<seq<TeleTile>>,
                                    speedup: Option<seq<SpeedupTile>>, switchLayer: Option<seq<SwitchTile>>,
                                    tune: Option<seq<TuneTile>>, front: Option<seq<Tile>>)
    requires w > 0 && h > 0 && |game| == w * h
    requires switchLayer.Some? && |switchLayer.value| >= w * h
    ensures var g := Loaded(w, h, game, tele, speedup, switchLayer, tune, front);
      forall i :: 0 <= i < w * h ==>
        (g.switches.value[i].kind <= TILE_NPH_ENABLE ==> g.switches.value[i].kind == 0 || KeptSwitchType(g.switches.value[i].kind)) &&
        (g.switches.value[i].kind != 0 ==> g.switches.value[i].kind == switchLayer.value[i].kind)
  {
    var g := Loaded(w, h, game, tele, speedup, switchLayer, tune, front);
    assert g.switches.value == NormalizedSwitches(switchLayer.value[..w * h]);
  }

  /**
   * A switch layer too small to attach still gets an all-zero door layer,
   * and no switch layer is attached.
   */
  lemma LoadedShortSwitchLayer(w: int, h: int, game: seq<Tile>, tele: Option<seq<TeleTile>>,
                               speedup: Option<seq<SpeedupTile>>, switchLayer: Option<seq<SwitchTile>>,
                               tune: Option<seq<TuneTile>>, front: Option<seq<Tile>>)
    requires w > 0 && h > 0 && |game| == w * h
    requires switchLayer.Some? && |switchLayer.value| < w * h
    ensures var g := Loaded(w, h, game, tele, speedup, switchLayer, tune, front);
      && g.switches.None?
      && g.door.Some?
      && (forall i :: 0 <= i < w * h ==> g.door.value[i] == ZeroDoor)
      && LoadedHighest(w, h, switchLayer) == 0
  {
  }

  /**
   * Init opens no door: every door lookup of the loaded grid reports no door,
   * whatever the switch layer holds.
   */
  lemma LoadedDoorsClosed(w: int, h: int, game: seq<Tile>, tele: Option<seq<TeleTile>>,
                          speedup: Option<seq<SpeedupTile>>, switchLayer: Option<seq<SwitchTile>>,
                          tune: Option<seq<TuneTile>>, front: Option<seq<Tile>>, index: int)
    requires w > 0 && h > 0 && |game| == w * h
    requires index < w * h
    ensures var g := Loaded(w, h, game, tele, speedup, switchLayer, tune, front);
      GetDTileIndex(g, index) == 0 && GetDTileNumber(g, index) == 0 && GetDTileFlags(g, index) == 0
  {
    var g := Loaded(w, h, game, tele, speedup, switchLayer, tune, front);
    if index >= 0 && switchLayer.Some? {
      var sw := Attach(switchLayer, w * h);
      if sw.Some? {
        assert g.door.value == DoorsFor(sw.value);
      }
      assert g.door.value[index].index == 0;
    }
  }

  /** No switch number the loaded grid reports exceeds m_HighestSwitchNumber. */
  lemma LoadedHighestBoundsSwitches(w: int, h: int, game: seq<Tile>, tele: Option<seq<TeleTile>>,
                                    speedup: Option<seq<SpeedupTile>>, switchLayer: Option<seq<SwitchTile>>,
                                    tune: Option<seq<TuneTile>>, front: Option<seq<Tile>>, index: int)
    requires w > 0 && h > 0 && |game| == w * h
    requires index < w * h
    ensures var g := Loaded(w, h, game, tele, speedup, switchLayer, tune, front);
      GetSwitchNumber(g, index) <= LoadedHighest(w, h, switchLayer)
  {
    var g := Loaded(w, h, game, tele, speedup, switchLayer, tune, front);
    var sw := Attach(switchLayer, w * h);
    if index >= 0 && sw.Some? {
      assert g.switches.value == NormalizedSwitches(sw.value);
      assert g.switches.value[index].number == sw.value[index].number;
    }
  }

  // ---------------------------------------------------------------------
  // The two single-cell edits, on values.

  /**
   * The grid after SetCollisionAt(x, y, id): the game tile under the rounded
   * position gets tile id `id` (stored in an unsigned char).
   */
  function SetTileIndexAt(g: Grid, x: real, y: real, id: int): (r: Grid)
    requires ValidGrid(g) && g.tiles.Some?
    ensures ValidGrid(r) && r.tiles.Some?
    ensures r == g.(tiles := r.tiles)
    ensures |r.tiles.value| == |g.tiles.value|
  {
    var k := GetPureMapIndex(g, x, y);
    g.(tiles := Some(g.tiles.value[k := g.tiles.value[k].(index := ToUint8(id))]))
  }

  /**
   * SetCollisionAt changes exactly the tile id of the cell under the
   * position; its flags and every other cell are untouched.
   */
  lemma SetTileIndexAtWritesOneCell(g: Grid, x: real, y: real, id: int, index: int)
    requires ValidGrid(g) && g.tiles.Some? && 0 <= index < Cells(g)
    ensures var r := SetTileIndexAt(g, x, y, id);
      (index == GetPureMapIndex(g, x, y) ==>
         GetTileIndex(r, index) == ToUint8(id) && GetTileFlags(r, index) == GetTileFlags(g, index)) &&
      (index != GetPureMapIndex(g, x, y) ==> r.tiles.value[index] == g.tiles.value[index])
  {
  }

  /**
   * Writing a collision tile id makes the position report it: after
   * SetCollisionAt(x, y, id) with id in [TILE_SOLID, TILE_NOLASER],
   * GetCollisionAt(x, y) is id, and CheckPoint(x, y) holds exactly for the
   * two solid ids.
   */
  lemma SetTileIndexAtIsVisible(g: Grid, x: real, y: real, id: int)
    requires ValidGrid(g) && g.tiles.Some?
    requires TILE_SOLID <= id <= TILE_NOLASER
    ensures GetCollisionAt(SetTileIndexAt(g, x, y, id), x, y) == id
    ensures CheckPoint(SetTileIndexAt(g, x, y, id), x, y) <==> id == TILE_SOLID || id == TILE_NOHOOK
  {
    var r := SetTileIndexAt(g, x, y, id);
    var k := GetPureMapIndex(g, x, y);
    assert GetPureMapIndex(r, x, y) == k;
    assert r.tiles.value[k].index == id;
  }

  /**
   * The grid after SetDCollisionAt(x, y, type, flags, number): with a door
   * layer, the door cell under the position is overwritten; without one,
   * nothing changes.
   */
  function SetDoorAt(g: Grid, x: real, y: real, kind: int, flags: int, number: int): (r: Grid)
    requires ValidGrid(g)
    ensures ValidGrid(r)
    ensures r == g.(door := r.door)
    ensures r.door.Some? <==> g.door.Some?
    ensures g.door.None? ==> r == g
  {
    if g.door.None? then g
    else
      var k := GetPureMapIndex(g, x, y);
      g.(door := Some(g.door.value[k := DoorTile(ToUint8(kind), ToUint8(flags), number)]))
  }

  /**
   * After SetDCollisionAt with a nonzero type, the door lookups at the cell
   * under the position report the type, flags and number written; with a
   * zero type the cell reports no door. Every other cell is untouched.
   */
  lemma SetDoorAtIsVisible(g: Grid, x: real, y: real, kind: uint8, flags: uint8, number: int, index: int)
    requires ValidGrid(g) && g.door.Some? && 0 <= index < Cells(g)
    ensures var r := SetDoorAt(g, x, y, kind, flags, number);
      (index == GetPureMapIndex(g, x, y) ==>
         GetDTileIndex(r, index) == kind &&
         (kind != 0 ==> GetDTileFlags(r, index) == flags && GetDTileNumber(r, index) == number) &&
         (kind == 0 ==> GetDTileFlags(r, index) == 0 && GetDTileNumber(r, index) == 0)) &&
      (index != GetPureMapIndex(g, x, y) ==> r.door.value[index] == g.door.value[index])
  {
  }

  // ---------------------------------------------------------------------
  // The object.

  /** The records of a layer array, None for a null pointer. */
  function Contents<T>(a: array?<T>): (r: Option<seq<T>>)
    reads a
    ensures r.None? <==> a == null
    ensures a != null ==> |r.value| == a.Length
  {
    if a == null then None else Some(a[..])
  }

  /** A fresh array holding the records of layer, when Attach keeps it. */
  method NewLayer<T(0)>(layer: Option<seq<T>>, n: int) returns (a: array?<T>)
    ensures Contents(a) == Attach(layer, n)
    ensures a != null ==> fresh(a)
  {
    if layer.Some? && 0 <= n <= |layer.value| {
      var s := layer.value[..n];
      a := new T[n](i requires 0 <= i < n => s[i]);
      assert a[..] == s;
    } else {
      a := null;
    }
  }

  /**
   * The state of the switch and door layers after the Init loop has visited
   * the first i cells of switch layer s and door layer d.
   */
  ghost predicate DerivedUpTo(s: seq<SwitchTile>, d: seq<DoorTile>, sw: seq<SwitchTile>, door: seq<DoorTile>, i: int)
  {
    |sw| == |s| && |door| == |d| == |s| && 0 <= i <= |s| &&
    (forall k :: 0 <= k < i ==> sw[k] == s[k].(kind := NormalizeSwitchType(s[k].kind))) &&
    (forall k :: i <= k < |s| ==> sw[k] == s[k]) &&
    (forall k :: 0 <= k < i ==> door[k] == d[k].(number := s[k].number)) &&
    (forall k :: i <= k < |s| ==> door[k] == d[k])
  }

  /** Visiting cell i moves the derivation one cell on. */
  lemma DerivedStep(s: seq<SwitchTile>, d: seq<DoorTile>, sw: seq<SwitchTile>, door: seq<DoorTile>, i: int)
    requires DerivedUpTo(s, d, sw, door, i) && i < |s|
    ensures DerivedUpTo(s, d, sw[i := s[i].(kind := NormalizeSwitchType(s[i].kind))],
                        door[i := d[i].(number := s[i].number)], i + 1)
  {
  }

  /** Once every cell is visited, the layers are the normalised switches and the numbered doors. */
  lemma DerivedAll(s: seq<SwitchTile>, d: seq<DoorTile>, sw: seq<SwitchTile>, door: seq<DoorTile>)
    requires DerivedUpTo(s, d, sw, door, |s|)
    ensures sw == NormalizedSwitches(s)
    ensures forall k :: 0 <= k < |door| ==> door[k] == d[k].(number := s[k].number)
  {
  }

  /**
   * The per-cell loop of Init over an attached switch layer: copy each
   * switch number into the door cell, normalise each switch type, and
   * return the highest switch number (starting from 0).
   */
  method DeriveDoors(sw: array<SwitchTile>, door: array<DoorTile>) returns (highest: int)
    requires sw.Length == door.Length
    modifies sw, door
    ensures highest == MaxSwitchNumber(old(sw[..]))
    ensures sw[..] == NormalizedSwitches(old(sw[..]))
    ensures forall k :: 0 <= k < door.Length ==> door[k] == old(door[k]).(number := old(sw[k]).number)
  {
    ghost var s := sw[..];
    ghost var d := door[..];
    highest := 0;
    var i := 0;
    while i < sw.Length
      invariant 0 <= i <= sw.Length
      invariant highest == MaxSwitchNumber(s[..i])
      invariant DerivedUpTo(s, d, sw[..], door[..], i)
    {
      MaxSwitchNumberStep(s, i);
      DerivedStep(s, d, sw[..], door[..], i);
      if sw[i].number > highest {
        highest := sw[i].number;
      }
      door[i] := door[i].(number := if sw[i].number != 0 then sw[i].number else 0);
      var index := sw[i].kind;
      if index <= TILE_NPH_ENABLE {
        sw[i] := sw[i].(kind := if KeptSwitchType(index) then index else 0);
      }
      i := i + 1;
    }
    assert s[..sw.Length] == s;
    DerivedAll(s, d, sw[..], door[..]);
  }

  /**
   * The switch part of Init: attach the switch layer when large enough,
   * allocate a zeroed door layer whenever the map has a switch layer, and
   * run the per-cell loop over an attached one.
   */
  method LoadSwitchLayer(switchLayer: Option<seq<SwitchTile>>, n: int)
    returns (sws: array?<SwitchTile>, dr: array?<DoorTile>, highest: int)
    requires n >= 0
    ensures Contents(sws) == LoadedSwitches(switchLayer, n)
    ensures Contents(dr) == LoadedDoors(switchLayer, n)
    ensures highest == (if Attach(switchLayer, n).Some? then MaxSwitchNumber(Attach(switchLayer, n).value) else 0)
    ensures sws != null ==> fresh(sws)
    ensures dr != null ==> fresh(dr)
  {
    sws, dr, highest := null, null, 0;
    if switchLayer.Some? {
      sws := NewLayer(switchLayer, n);
      dr := new DoorTile[n](_ => ZeroDoor);
    }
    if sws != null {
      ghost var s := sws[..];
      highest := DeriveDoors(sws, dr);
      assert dr[..] == DoorsFor(s);
    } else if dr != null {
      assert dr[..] == seq(n, _ => ZeroDoor);
    }
  }

  /**
   * The arrays Init attaches or allocates, in the order it does so, and the
   * highest switch number; the game layer is always attached.
   */
  method LoadLayers(w: int, h: int, game: seq<Tile>, teleLayer: Option<seq<TeleTile>>,
                    speedupLayer: Option<seq<SpeedupTile>>, switchLayer: Option<seq<SwitchTile>>,
                    tuneLayer: Option<seq<TuneTile>>, frontLayer: Option<seq<Tile>>)
    returns (t: array<Tile>, fr: array?<Tile>, te: array?<TeleTile>, sp: array?<SpeedupTile>,
             sws: array?<SwitchTile>, tu: array?<TuneTile>, dr: array?<DoorTile>, highest: int)
    requires w > 0 && h > 0 && |game| == w * h
    ensures Grid(w, h, Contents(t), Contents(fr), Contents(te), Contents(sp), Contents(sws), Contents(tu), Contents(dr))
      == Loaded(w, h, game, teleLayer, speedupLayer, switchLayer, tuneLayer, frontLayer)
    ensures highest == LoadedHighest(w, h, switchLayer)
    ensures fr != t
  {
    var n := w * h;
    t := new Tile[n](i requires 0 <= i < n => game[i]);
    assert t[..] == game;
    te := NewLayer(teleLayer, n);
    sp := NewLayer(speedupLayer, n);
    sws, dr, highest := LoadSwitchLayer(switchLayer, n);
    tu := NewLayer(tuneLayer, n);
    fr := NewLayer(frontLayer, n);
  }

  /** CCollision: the map's layers as owned (or borrowed) row-major arrays. */
  class Collision {
    var width: int
    var height: int
    var tiles: array?<Tile>
    var tele: array?<TeleTile>
    var speedup: array?<SpeedupTile>
    var front: array?<Tile>
    var switches: array?<SwitchTile>
    var tune: array?<TuneTile>
    var door: array?<DoorTile>
    var highestSwitchNumber: int

    /** The grid the const queries read. */
    function View(): Grid
      reads this, tiles, tele, speedup, front, switches, tune, door
    {
      Grid(width, height, Contents(tiles), Contents(front), Contents(tele), Contents(speedup),
           Contents(switches), Contents(tune), Contents(door))
    }

    /** Each present layer covers the grid, and the game and front layers are distinct arrays. */
    predicate Valid()
      reads this, tiles, tele, speedup, front, switches, tune, door
    {
      ValidGrid(View()) && (tiles != null && front != null ==> tiles != front)
    }

    /** CCollision::GetWidth: the width of the loaded grid. */
    function GetWidth(): (r: int)
      reads this, tiles, tele, speedup, front, switches, tune, door
      ensures r == View().width
    {
      width
    }

    /** CCollision::GetHeight: the height of the loaded grid. */
    function GetHeight(): (r: int)
      reads this, tiles, tele, speedup, front, switches, tune, door
      ensures r == View().height
    {
      height
    }

    /**
     * CCollision::CCollision: no layers and a 0x0 grid. The C++ constructor leaves
     * m_HighestSwitchNumber uninitialised; the model starts it at 0 and
     * states nothing about it.
     */
    constructor()
      ensures Valid() && View() == EmptyGrid
      ensures GetWidth() == 0 && GetHeight() == 0
    {
      width := 0;
      height := 0;
      tiles := null;
      tele := null;
      speedup := null;
      front := null;
      switches := null;
      tune := null;
      door := null;
      highestSwitchNumber := 0;
    }

    /** CCollision::Dest: drop every layer and reset the size; m_HighestSwitchNumber is kept. */
    method Dest()
      modifies this
      ensures Valid() && View() == EmptyGrid
      ensures GetWidth() == 0 && GetHeight() == 0
      ensures highestSwitchNumber == old(highestSwitchNumber)
    {
      tiles := null;
      width := 0;
      height := 0;
      tele := null;
      speedup := null;
      front := null;
      switches := null;
      tune := null;
      door := null;
    }

    /**
     * CCollision::Init, on the layers of an already parsed map: attach each
     * optional layer that is large enough, allocate a zeroed door layer when
     * the map has a switch layer, then derive doors, switch types and the
     * highest switch number from the attached switch layer.
     */
    method Init(w: int, h: int, game: seq<Tile>, teleLayer: Option<seq<TeleTile>>,
                speedupLayer: Option<seq<SpeedupTile>>, switchLayer: Option<seq<SwitchTile>>,
                tuneLayer: Option<seq<TuneTile>>, frontLayer: Option<seq<Tile>>)
      requires w > 0 && h > 0 && |game| == w * h
      modifies this
      ensures Valid()
      ensures View() == Loaded(w, h, game, teleLayer, speedupLayer, switchLayer, tuneLayer, frontLayer)
      ensures highestSwitchNumber == LoadedHighest(w, h, switchLayer)
      ensures GetWidth() == w && GetHeight() == h
    {
      Dest();
      highestSwitchNumber := 0;
      var t, fr, te, sp, sws, tu, dr, highest := LoadLayers(w, h, game, teleLayer, speedupLayer, switchLayer, tuneLayer, frontLayer);
      Install(w, h, t, fr, te, sp, sws, tu, dr);
      highestSwitchNumber := highest;
    }

    /** Point the object at the given size and layer arrays. */
    method Install(w: int, h: int, t: array?<Tile>, fr: array?<Tile>, te: array?<TeleTile>, sp: array?<SpeedupTile>,
                   sws: array?<SwitchTile>, tu: array?<TuneTile>, dr: array?<DoorTile>)
      modifies this
      ensures View() == Grid(w, h, Contents(t), Contents(fr), Contents(te), Contents(sp), Contents(sws), Contents(tu), Contents(dr))
      ensures tiles == t && front == fr
      ensures highestSwitchNumber == old(highestSwitchNumber)
    {
      width, height := w, h;
      tiles, tele, speedup, switches, tune, front, door := t, te, sp, sws, tu, fr, dr;
    }

    /**
     * CCollision::SetCollisionAt: overwrite the tile id of the game cell
     * under the rounded, clamped position.
     */
    method SetCollisionAt(x: real, y: real, id: int)
      requires Valid() && tiles != null
      modifies tiles
      ensures Valid()
      ensures View() == SetTileIndexAt(old(View()), x, y, id)
    {
      var k := GetPureMapIndex(View(), x, y);
      tiles[k] := tiles[k].(index := ToUint8(id));
    }

    /**
     * CCollision::SetDCollisionAt: overwrite the door cell under the rounded,
     * clamped position; a no-op without a door layer.
     */
    method SetDCollisionAt(x: real, y: real, kind: int, flags: int, number: int)
      requires Valid()
      modifies door
      ensures Valid()
      ensures View() == SetDoorAt(old(View()), x, y, kind, flags, number)
    {
      if door == null {
        return;
      }
      var k := GetPureMapIndex(View(), x, y);
      door[k] := DoorTile(ToUint8(kind), ToUint8(flags), number);
    }
  }
}
