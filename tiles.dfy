/** The tile grid of a level and the room carver that fills it (src/map.rs):
    tile kinds and their solidity and atlas cells, the bounds-safe solidity
    query, `add_room` and the fixed room sequence of `make_map`. */
module Tiles {

  /** One grid cell. `Void` is what a fresh grid holds. */
  datatype Tile = Void | Floor1 | Floor2 | Wall1 | Wall2 | Wall3 | Wall4 {

    /** Floors are open; Void and every wall block. */
    function IsSolid(): (r: bool)
      ensures r <==> this !in {Floor1, Floor2}
    {
      match this
      case Floor1 => false
      case Floor2 => false
      case _ => true
    }

    /** Void is the one tile drawn from the third atlas row, and it
        blocks like a wall. */
    function IsVoid(): (r: bool)
      ensures r <==> this == Void
      ensures r <==> TexId().row == 2
      ensures r ==> IsSolid()
    {
      this == Void
    }

    /** The cell of the 4-by-4 texture atlas a tile is drawn with: walls on the
        first atlas row, floors on the second, Void on the third. */
    function TexId(): (r: AtlasCell)
      ensures 0 <= r.col < 4 && 0 <= r.row < 4
      ensures this in {Wall1, Wall2, Wall3, Wall4} <==> r.row == 0
      ensures this in {Floor1, Floor2} <==> r.row == 1
    {
      match this
      case Floor1 => AtlasCell(0, 1)
      case Floor2 => AtlasCell(1, 1)
      case Wall1 => AtlasCell(0, 0)
      case Wall2 => AtlasCell(1, 0)
      case Wall3 => AtlasCell(2, 0)
      case Wall4 => AtlasCell(3, 0)
      case _ => AtlasCell(1, 2)
    }
  }

  /** An integer pair addressing a texture atlas cell (the source's `IVec2`). */
  datatype AtlasCell = AtlasCell(col: int, row: int)

  /** A tile-grid position. */
  datatype Coords = Coords(x: int, y: int)

  /** The arguments of one `add_room` call: floor and wall kinds and the two
      corners of the floor rectangle, both inclusive. */
  datatype Room = Room(floor: Tile, wall: Tile, p0: Coords, p1: Coords)

  /** Every tile kind has its own atlas cell. */
  lemma TexIdInjective(a: Tile, b: Tile)
    requires a != b
    ensures a.TexId() != b.TexId()
  {
  }

  /** The grid of a level, indexed `tiles[x, y]`: `x` runs over
      `tiles.Length0` and `y` over `tiles.Length1`. The source bounds `x` by
      the column count but uses it as the grid's first (row) index; the two
      readings agree on the square grids the core builds. */
  class Map {
    const tiles: array2<Tile>

    /** A grid of the given size holding only Void (`Grid::new`). */
    constructor (cols: nat, rows: nat)
      ensures tiles.Length0 == cols && tiles.Length1 == rows && fresh(tiles)
      ensures forall x, y :: 0 <= x < cols && 0 <= y < rows ==> tiles[x, y] == Void
    {
      tiles := new Tile[cols, rows]((_, _) => Void);
    }

    predicate InBounds(x: int, y: int) {
      0 <= x < tiles.Length0 && 0 <= y < tiles.Length1
    }

    /** Solidity of a cell; every position outside the grid counts as solid. */
    function IsSolid(x: int, y: int): (r: bool)
      reads tiles
      ensures !InBounds(x, y) ==> r
      ensures InBounds(x, y) ==> (r <==> tiles[x, y] !in {Floor1, Floor2})
    {
      if InBounds(x, y) then tiles[x, y].IsSolid() else true
    }

    /** The tile at an in-grid position; the source indexes without a check.
        On the grid, the bounds-safe solidity query agrees with the tile. */
    function TileAt(x: int, y: int): (t: Tile)
      requires InBounds(x, y)
      reads tiles
      ensures t.IsSolid() == IsSolid(x, y)
    {
      tiles[x, y]
    }

    method SetTile(x: int, y: int, t: Tile)
      requires InBounds(x, y)
      modifies tiles
      ensures tiles[x, y] == t
      ensures forall i, j :: InBounds(i, j) && (i, j) != (x, y) ==> tiles[i, j] == old(tiles[i, j])
    {
      tiles[x, y] := t;
    }
  }

  predicate InRect(r: Room, x: int, y: int) {
    r.p0.x <= x <= r.p1.x && r.p0.y <= y <= r.p1.y
  }

  /** The floor rectangle widened by one cell on every side. */
  predicate InBox(r: Room, x: int, y: int) {
    r.p0.x - 1 <= x <= r.p1.x + 1 && r.p0.y - 1 <= y <= r.p1.y + 1
  }

  /** What `add_room`'s unchecked indexing demands of its caller: whenever its
      loops run at all, the widened box lies inside the grid. */
  predicate RoomFits(m: Map, r: Room) {
    r.p0.x <= r.p1.x + 2 && r.p0.y <= r.p1.y + 2 ==>
      1 <= r.p0.x && r.p1.x + 1 < m.tiles.Length0 && 1 <= r.p0.y && r.p1.y + 1 < m.tiles.Length1
  }

  /** A cell after the floor pass of `add_room`: only the rectangle changes,
      and it takes the floor kind. */
  function Floored(t: Tile, x: int, y: int, r: Room): (f: Tile)
    ensures f != t ==> InRect(r, x, y)
    ensures InRect(r, x, y) ==> f == r.floor
  {
    if InRect(r, x, y) then r.floor else t
  }

  /** A cell after both passes of `add_room`, given the tile `t` it held
      before: the floor rectangle takes the floor kind, and a box cell that is
      then still Void takes the wall kind. */
  function Carved(t: Tile, x: int, y: int, r: Room): (c: Tile)
    ensures InRect(r, x, y) && r.floor != Void ==> c == r.floor
    ensures InBox(r, x, y) && !InRect(r, x, y) && t == Void ==> c == r.wall
    ensures !InRect(r, x, y) && t != Void ==> c == t
    ensures !InBox(r, x, y) ==> c == t
  {
    var f := Floored(t, x, y, r);
    if InBox(r, x, y) && f == Void then r.wall else f
  }

  /** Carving the same room twice leaves every cell as carving it once. */
  lemma CarveIdempotent(t: Tile, x: int, y: int, r: Room)
    ensures Carved(Carved(t, x, y, r), x, y, r) == Carved(t, x, y, r)
  {
  }

  /** Stamps room `floor`/`wall` with floor rectangle [p0, p1] into the grid. */
  method AddRoom(m: Map, floor: Tile, wall: Tile, p0: Coords, p1: Coords)
    requires RoomFits(m, Room(floor, wall, p0, p1))
    modifies m.tiles
    ensures forall x, y :: m.InBounds(x, y) ==>
      m.tiles[x, y] == Carved(old(m.tiles[x, y]), x, y, Room(floor, wall, p0, p1))
  {
    ghost var r := Room(floor, wall, p0, p1);
    var y := p0.y;
    while y <= p1.y
      invariant p0.y <= y && (y <= p1.y + 1 || y == p0.y)
      invariant forall i, j :: m.InBounds(i, j) ==>
        m.tiles[i, j] == if j < y then Floored(old(m.tiles[i, j]), i, j, r) else old(m.tiles[i, j])
    {
      var x := p0.x;
      while x <= p1.x
        invariant p0.x <= x && (x <= p1.x + 1 || x == p0.x)
        invariant forall i, j :: m.InBounds(i, j) ==>
          m.tiles[i, j] == if j < y || (j == y && i < x) then Floored(old(m.tiles[i, j]), i, j, r)
                           else old(m.tiles[i, j])
      {
        m.SetTile(x, y, floor);
        x := x + 1;
      }
      y := y + 1;
    }

    y := p0.y - 1;
    while y <= p1.y + 1
      invariant p0.y - 1 <= y && (y <= p1.y + 2 || y == p0.y - 1)
      invariant forall i, j :: m.InBounds(i, j) ==>
        m.tiles[i, j] == if j < y then Carved(old(m.tiles[i, j]), i, j, r)
                         else Floored(old(m.tiles[i, j]), i, j, r)
    {
      var x := p0.x - 1;
      while x <= p1.x + 1
        invariant p0.x - 1 <= x && (x <= p1.x + 2 || x == p0.x - 1)
        invariant forall i, j :: m.InBounds(i, j) ==>
          m.tiles[i, j] == if j < y || (j == y && i < x) then Carved(old(m.tiles[i, j]), i, j, r)
                           else Floored(old(m.tiles[i, j]), i, j, r)
      {
        if m.TileAt(x, y) == Void {
          m.SetTile(x, y, wall);
        }
        x := x + 1;
      }
      y := y + 1;
    }
  }

  /** Side length of the generated map. */
  const MapSize: nat := 32

  /** The rooms and corridors `make_map` carves, in order. */
  function MapRooms(): (rooms: seq<Room>)
    ensures |rooms| == 9
  {
    [ Room(Floor1, Wall1, Coords(2, 2), Coords(12, 12)),
      Room(Floor2, Wall1, Coords(18, 1), Coords(26, 13)),
      Room(Floor2, Wall1, Coords(16, 3), Coords(28, 11)),
      Room(Floor2, Wall3, Coords(2, 20), Coords(7, 27)),
      Room(Floor2, Wall3, Coords(5, 17), Coords(9, 27)),
      Room(Floor1, Wall4, Coords(17, 17), Coords(27, 27)),
      Room(Floor1, Wall2, Coords(7, 7), Coords(7, 22)),
      Room(Floor1, Wall2, Coords(7, 22), Coords(22, 22)),
      Room(Floor1, Wall2, Coords(22, 7), Coords(22, 22)) ]
  }

  /** A cell after carving `rooms` in order, starting from tile `t`. */
  function CarveAll(t: Tile, x: int, y: int, rooms: seq<Room>): Tile
    decreases |rooms|
  {
    if rooms == [] then t
    else Carved(CarveAll(t, x, y, rooms[..|rooms| - 1]), x, y, rooms[|rooms| - 1])
  }

  /** Carves the k-th room of the `make_map` sequence. */
  method CarveNext(m: Map, k: nat)
    requires k < |MapRooms()|
    requires m.tiles.Length0 == MapSize && m.tiles.Length1 == MapSize
    requires forall x, y :: m.InBounds(x, y) ==> m.tiles[x, y] == CarveAll(Void, x, y, MapRooms()[..k])
    modifies m.tiles
    ensures forall x, y :: m.InBounds(x, y) ==> m.tiles[x, y] == CarveAll(Void, x, y, MapRooms()[..k + 1])
  {
    var r := MapRooms()[k];
    assert MapRooms()[..k + 1][..k] == MapRooms()[..k];
    AddRoom(m, r.floor, r.wall, r.p0, r.p1);
  }

  /** The first level map: a 32-by-32 Void grid with six rooms and three
      corridors carved into it. */
  method MakeMap() returns (m: Map)
    ensures fresh(m.tiles) && m.tiles.Length0 == MapSize && m.tiles.Length1 == MapSize
    ensures forall x, y :: m.InBounds(x, y) ==> m.tiles[x, y] == CarveAll(Void, x, y, MapRooms())
  {
    m := new Map(MapSize, MapSize);
    CarveNext(m, 0);
    CarveNext(m, 1);
    CarveNext(m, 2);
    CarveNext(m, 3);
    CarveNext(m, 4);
    CarveNext(m, 5);
    CarveNext(m, 6);
    CarveNext(m, 7);
    CarveNext(m, 8);
    assert MapRooms()[..9] == MapRooms();
  }

  /** The floor kind is not Void and the wall kind is a real wall. */
  predicate Solidly(r: Room) {
    r.floor != Void && r.wall.IsSolid() && r.wall != Void
  }

  /** An open cell has four non-Void neighbours. */
  predicate SealedAt(rooms: seq<Room>, x: int, y: int) {
    CarveAll(Void, x, y, rooms).IsSolid() ||
    (CarveAll(Void, x - 1, y, rooms) != Void && CarveAll(Void, x + 1, y, rooms) != Void &&
     CarveAll(Void, x, y - 1, rooms) != Void && CarveAll(Void, x, y + 1, rooms) != Void)
  }

  /** With non-Void floor and wall kinds, a carve never turns a non-Void cell Void. */
  lemma CarveAllKeepsNonVoid(t: Tile, x: int, y: int, rooms: seq<Room>, k: nat)
    requires k <= |rooms|
    requires forall i :: 0 <= i < |rooms| ==> Solidly(rooms[i])
    requires CarveAll(t, x, y, rooms[..k]) != Void
    ensures CarveAll(t, x, y, rooms) != Void
    decreases |rooms|
  {
    if k < |rooms| {
      var n := |rooms| - 1;
      assert rooms[..n][..k] == rooms[..k];
      CarveAllKeepsNonVoid(t, x, y, rooms[..n], k);
    } else {
      assert rooms[..k] == rooms;
    }
  }

  /** Carving rooms whose kinds are not Void leaves no open cell next to Void:
      every walkable cell is enclosed by floor or wall. */
  lemma {:induction false} CarveAllSealed(rooms: seq<Room>, x: int, y: int)
    requires forall i :: 0 <= i < |rooms| ==> Solidly(rooms[i])
    ensures SealedAt(rooms, x, y)
    decreases |rooms|
  {
    if rooms != [] && !CarveAll(Void, x, y, rooms).IsSolid() {
      var n := |rooms| - 1;
      var prev, r := rooms[..n], rooms[n];
      assert Solidly(r);
      if !InRect(r, x, y) {
        CarveAllSealed(prev, x, y);
        assert rooms[..n] == prev;
        CarveAllKeepsNonVoid(Void, x - 1, y, rooms, n);
        CarveAllKeepsNonVoid(Void, x + 1, y, rooms, n);
        CarveAllKeepsNonVoid(Void, x, y - 1, rooms, n);
        CarveAllKeepsNonVoid(Void, x, y + 1, rooms, n);
      }
    }
  }

  /** Every open cell of the carved grid lies in the floor rectangle of one of
      the rooms. */
  lemma {:induction false} CarveAllOpenInRoom(rooms: seq<Room>, x: int, y: int)
    requires forall i :: 0 <= i < |rooms| ==> Solidly(rooms[i])
    requires !CarveAll(Void, x, y, rooms).IsSolid()
    ensures exists i :: 0 <= i < |rooms| && InRect(rooms[i], x, y)
    decreases |rooms|
  {
    var n := |rooms| - 1;
    if !InRect(rooms[n], x, y) {
      assert Solidly(rooms[n]);
      assert !CarveAll(Void, x, y, rooms[..n]).IsSolid();
      CarveAllOpenInRoom(rooms[..n], x, y);
      var i :| 0 <= i < n && InRect(rooms[..n][i], x, y);
      assert InRect(rooms[i], x, y);
    }
  }

  /** Every walkable cell of the `make_map` grid lies at least one cell inside
      the border and has four in-grid, non-Void neighbours, so nothing can
      leave the carved rooms into Void. */
  lemma MakeMapSealed(x: int, y: int)
    requires !CarveAll(Void, x, y, MapRooms()).IsSolid()
    ensures 1 <= x < MapSize - 1 && 1 <= y < MapSize - 1
    ensures SealedAt(MapRooms(), x, y)
  {
    CarveAllOpenInRoom(MapRooms(), x, y);
    CarveAllSealed(MapRooms(), x, y);
  }
}
