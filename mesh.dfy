/** Boundary-face mesh extraction from the tile grid (src/map.rs,
    `MeshBuilder` and `map_to_mesh`). Positions, normals and texture
    coordinates are kept as integers: grid corners are whole numbers, the
    normals are cross products of unit axis vectors, and texture
    coordinates are counted in quarters of the atlas. */
module Mesh {
  import opened Tiles

  datatype Vec3 = Vec3(x: int, y: int, z: int)

  /** A texture coordinate in quarter-atlas units: the source's uv times four. */
  datatype Uv = Uv(u: int, v: int)

  /** The four sides of a cell, in the order `map_to_mesh` tests them. */
  datatype Dir = North | East | South | West

  /** One quad of the mesh: the cell it belongs to, the side of the cell it
      faces and the kind of tile it is drawn for. */
  datatype Face = Face(x: int, y: int, side: Dir, tile: Tile)

  /** The vertex and index buffers of a mesh (the four `MeshBuilder` vectors). */
  datatype MeshData = MeshData(indices: seq<int>, positions: seq<Vec3>, normals: seq<Vec3>, uvs: seq<Uv>)

  /** The three coordinate axes. */
  datatype Dim = DimX | DimY | DimZ

  /** A unit vector along an axis. `add_rect` is only ever given these as
      edge vectors (`Vec3::X`, `Vec3::Y`, `Vec3::Z`, `Vec3::NEG_X`,
      `Vec3::NEG_Z`). */
  datatype Axis = Axis(dim: Dim, positive: bool)

  const X := Axis(DimX, true)
  const Y := Axis(DimY, true)
  const Z := Axis(DimZ, true)
  const NegX := Axis(DimX, false)
  const NegZ := Axis(DimZ, false)

  function Unit(a: Axis): Vec3 {
    var s := if a.positive then 1 else -1;
    match a.dim
    case DimX => Vec3(s, 0, 0)
    case DimY => Vec3(0, s, 0)
    case DimZ => Vec3(0, 0, s)
  }

  function Plus(p: Vec3, a: Axis): Vec3 {
    var u := Unit(a);
    Vec3(p.x + u.x, p.y + u.y, p.z + u.z)
  }

  /** True when (a, b) is in the cyclic order x, y, z. */
  predicate Cyclic(a: Dim, b: Dim) {
    (a, b) in {(DimX, DimY), (DimY, DimZ), (DimZ, DimX)}
  }

  function Third(a: Dim, b: Dim): Dim {
    if DimX !in {a, b} then DimX else if DimY !in {a, b} then DimY else DimZ
  }

  /** The cross product of two unit axis vectors: zero for parallel axes,
      otherwise the unit vector along the third axis, positive exactly when
      the pair is in cyclic order with equal signs or in anti-cyclic order
      with opposite signs. */
  function Cross(a: Axis, b: Axis): Vec3 {
    if a.dim == b.dim then Vec3(0, 0, 0)
    else Unit(Axis(Third(a.dim, b.dim), (a.positive == b.positive) == Cyclic(a.dim, b.dim)))
  }

  /** The cell on the other side of side `d` of cell (x, y). */
  function Neighbour(x: int, y: int, d: Dir): Coords {
    match d
    case North => Coords(x, y - 1)
    case East => Coords(x + 1, y)
    case South => Coords(x, y + 1)
    case West => Coords(x - 1, y)
  }

  /** A cell shows side `d` when it holds a wall and the cell across that
      side is open. Void cells, floors and sides facing a solid cell or the
      outside of the grid show nothing. */
  predicate Shows(m: Map, x: int, y: int, d: Dir)
    requires m.InBounds(x, y)
    reads m.tiles
  {
    var t := m.tiles[x, y];
    var n := Neighbour(x, y, d);
    t.IsSolid() && !t.IsVoid() && !m.IsSolid(n.x, n.y)
  }

  function FaceIf(m: Map, x: int, y: int, d: Dir): seq<Face>
    requires m.InBounds(x, y)
    reads m.tiles
  {
    if Shows(m, x, y, d) then [Face(x, y, d, m.tiles[x, y])] else []
  }

  /** The faces of one cell, in the order north, east, south, west. */
  function CellFaces(m: Map, x: int, y: int): seq<Face>
    requires m.InBounds(x, y)
    reads m.tiles
  {
    FaceIf(m, x, y, North) + FaceIf(m, x, y, East) + FaceIf(m, x, y, South) + FaceIf(m, x, y, West)
  }

  /** The faces of the first `n` cells of row `y`. */
  function RowFaces(m: Map, y: int, n: nat): seq<Face>
    requires 0 <= y < m.tiles.Length1 && n <= m.tiles.Length0
    reads m.tiles
  {
    if n == 0 then [] else RowFaces(m, y, n - 1) + CellFaces(m, n - 1, y)
  }

  /** The faces of the first `n` rows, row by row. */
  function GridFaces(m: Map, n: nat): seq<Face>
    requires n <= m.tiles.Length1
    reads m.tiles
  {
    if n == 0 then [] else GridFaces(m, n - 1) + RowFaces(m, n - 1, m.tiles.Length0)
  }

  /** The corner and the first edge vector `map_to_mesh` passes to
      `add_rect` for a face; the second edge is always `Y`. */
  function Corner(f: Face): Vec3 {
    var p0 := Vec3(f.x, 0, f.y);
    match f.side
    case North => p0
    case East => Plus(p0, X)
    case South => Plus(Plus(p0, X), Z)
    case West => Plus(p0, Z)
  }

  function Edge(f: Face): Axis {
    match f.side
    case North => X
    case East => Z
    case South => NegX
    case West => NegZ
  }

  /** The normal `add_rect` stores for a face (the cross product of its two
      edges) is a unit vector pointing from the open neighbour into the wall
      cell, for all four sides. */
  lemma NormalIntoWall(f: Face)
    ensures var n, c := Cross(Edge(f), Y), Neighbour(f.x, f.y, f.side);
      n == Vec3(f.x - c.x, 0, f.y - c.y)
  {
  }

  /** The four vertices and two triangles `add_rect` appends for the quad at
      corner `p` spanned by `d0` and `d1` with normal `n`, when `base`
      vertices exist already. */
  function Quad(base: int, p: Vec3, d0: Axis, d1: Axis, tex: AtlasCell): (q: MeshData)
    ensures |q.indices| == 6 && |q.positions| == 4 && |q.normals| == 4 && |q.uvs| == 4
    ensures forall i :: 0 <= i < 6 ==> base <= q.indices[i] < base + 4
    ensures forall k :: base <= k < base + 4 ==> k in q.indices
    ensures forall i :: 0 <= i < 4 ==> q.normals[i] == Cross(d0, d1)
    ensures q.positions[0] == p && q.positions[1] == Plus(p, d0) && q.positions[3] == Plus(p, d1)
    ensures q.positions[2] == Plus(q.positions[1], d1) && q.positions[2] == Plus(q.positions[3], d0)
    ensures q.uvs[0] == Uv(tex.col, tex.row) && q.uvs[1] == Uv(tex.col + 1, tex.row)
    ensures q.uvs[2] == Uv(tex.col + 1, tex.row + 1) && q.uvs[3] == Uv(tex.col, tex.row + 1)
  {
    var n := Cross(d0, d1);
    var uv := Uv(tex.col, tex.row);
    MeshData(
      [base, base + 2, base + 1, base, base + 3, base + 2],
      [p, Plus(p, d0), Plus(Plus(p, d0), d1), Plus(p, d1)],
      [n, n, n, n],
      [uv, Uv(uv.u + 1, uv.v), Uv(uv.u + 1, uv.v + 1), Uv(uv.u, uv.v + 1)])
  }

  function Append(a: MeshData, b: MeshData): MeshData {
    MeshData(a.indices + b.indices, a.positions + b.positions, a.normals + b.normals, a.uvs + b.uvs)
  }

  function FaceQuad(f: Face, base: int): MeshData {
    Quad(base, Corner(f), Edge(f), Y, f.tile.TexId())
  }

  /** The mesh holding one quad per face, in order. */
  function MeshOf(faces: seq<Face>): MeshData
    decreases |faces|
  {
    if faces == [] then MeshData([], [], [], [])
    else
      var n := |faces| - 1;
      Append(MeshOf(faces[..n]), FaceQuad(faces[n], 4 * n))
  }

  /** The three vertex attributes have one entry per vertex and every index
      names an existing vertex. */
  predicate WellFormed(d: MeshData) {
    |d.normals| == |d.positions| && |d.uvs| == |d.positions| &&
    forall i :: 0 <= i < |d.indices| ==> 0 <= d.indices[i] < |d.positions|
  }

  /** One quad: six indices naming its own four vertices. */
  lemma QuadShape(f: Face, base: int)
    ensures |FaceQuad(f, base).indices| == 6 && |FaceQuad(f, base).positions| == 4
    ensures |FaceQuad(f, base).normals| == 4 && |FaceQuad(f, base).uvs| == 4
    ensures forall i :: 0 <= i < 6 ==> base <= FaceQuad(f, base).indices[i] < base + 4
  {
  }

  /** Every quad adds four vertices and six indices; the mesh of n faces has
      4n vertices, 6n indices, and stays well formed. */
  lemma {:induction false} MeshOfShape(faces: seq<Face>)
    ensures |MeshOf(faces).indices| == 6 * |faces|
    ensures |MeshOf(faces).positions| == 4 * |faces|
    ensures WellFormed(MeshOf(faces))
    decreases |faces|
  {
    if faces != [] {
      var n := |faces| - 1;
      MeshOfShape(faces[..n]);
      var a, q := MeshOf(faces[..n]), FaceQuad(faces[n], 4 * n);
      QuadShape(faces[n], 4 * n);
      assert MeshOf(faces) == Append(a, q);
      var ix := a.indices + q.indices;
      forall i | 0 <= i < |ix|
        ensures 0 <= ix[i] < 4 * n + 4
      {
        if i < |a.indices| {
          assert ix[i] == a.indices[i];
        } else {
          assert ix[i] == q.indices[i - |a.indices|];
        }
      }
    }
  }

  /** Every side of every cell of a wall with open neighbours is shown: an
      isolated wall tile surrounded by floor gives four faces. */
  lemma IsolatedWallFourFaces(m: Map, x: int, y: int)
    requires m.InBounds(x, y) && m.InBounds(x - 1, y) && m.InBounds(x + 1, y)
    requires m.InBounds(x, y - 1) && m.InBounds(x, y + 1)
    requires m.tiles[x, y] in {Wall1, Wall2, Wall3, Wall4}
    requires forall n :: n in [Coords(x - 1, y), Coords(x + 1, y), Coords(x, y - 1), Coords(x, y + 1)] ==>
      m.tiles[n.x, n.y] in {Floor1, Floor2}
    ensures |CellFaces(m, x, y)| == 4
  {
    assert Coords(x - 1, y) in [Coords(x - 1, y), Coords(x + 1, y), Coords(x, y - 1), Coords(x, y + 1)];
    assert Coords(x + 1, y) in [Coords(x - 1, y), Coords(x + 1, y), Coords(x, y - 1), Coords(x, y + 1)];
    assert Coords(x, y - 1) in [Coords(x - 1, y), Coords(x + 1, y), Coords(x, y - 1), Coords(x, y + 1)];
    assert Coords(x, y + 1) in [Coords(x - 1, y), Coords(x + 1, y), Coords(x, y - 1), Coords(x, y + 1)];
  }

  /** The faces of a cell are exactly its shown sides. */
  lemma CellFacesExact(m: Map, x: int, y: int, f: Face)
    requires m.InBounds(x, y)
    ensures f in CellFaces(m, x, y) <==>
      f.x == x && f.y == y && Shows(m, x, y, f.side) && f.tile == m.tiles[x, y]
  {
    var n, e, s, w := FaceIf(m, x, y, North), FaceIf(m, x, y, East), FaceIf(m, x, y, South), FaceIf(m, x, y, West);
    assert f in n + e + s + w <==> f in n || f in e || f in s || f in w;
  }

  /** The faces of a row are exactly the shown sides of its first n cells. */
  lemma {:induction false} RowFacesExact(m: Map, y: int, n: nat, f: Face)
    requires 0 <= y < m.tiles.Length1 && n <= m.tiles.Length0
    ensures f in RowFaces(m, y, n) <==>
      f.y == y && 0 <= f.x < n && Shows(m, f.x, f.y, f.side) && f.tile == m.tiles[f.x, f.y]
    decreases n
  {
    if n > 0 {
      RowFacesExact(m, y, n - 1, f);
      CellFacesExact(m, n - 1, y, f);
      assert RowFaces(m, y, n) == RowFaces(m, y, n - 1) + CellFaces(m, n - 1, y);
    }
  }

  /** `map_to_mesh` emits one face for each (wall cell, side) whose
      neighbour is open, and nothing else. */
  lemma {:induction false} GridFacesExact(m: Map, n: nat, f: Face)
    requires n <= m.tiles.Length1
    ensures f in GridFaces(m, n) <==>
      0 <= f.y < n && m.InBounds(f.x, f.y) && Shows(m, f.x, f.y, f.side) && f.tile == m.tiles[f.x, f.y]
    decreases n
  {
    if n > 0 {
      GridFacesExact(m, n - 1, f);
      RowFacesExact(m, n - 1, m.tiles.Length0, f);
    }
  }

  function SideRank(d: Dir): nat {
    match d
    case North => 0
    case East => 1
    case South => 2
    case West => 3
  }

  /** The position of a face in the scan order of `map_to_mesh`. */
  predicate Before(f: Face, g: Face) {
    f.y < g.y || (f.y == g.y && (f.x < g.x || (f.x == g.x && SideRank(f.side) < SideRank(g.side))))
  }

  predicate Ascending(faces: seq<Face>) {
    forall i, j :: 0 <= i < j < |faces| ==> Before(faces[i], faces[j])
  }

  lemma ConcatAscending(a: seq<Face>, b: seq<Face>)
    requires Ascending(a) && Ascending(b)
    requires forall f, g :: f in a && g in b ==> Before(f, g)
    ensures Ascending(a + b)
  {
    forall i, j | 0 <= i < j < |a + b|
      ensures Before((a + b)[i], (a + b)[j])
    {
      if i < |a| && j >= |a| {
        assert (a + b)[i] == a[i] && (a + b)[j] == b[j - |a|];
        assert a[i] in a && b[j - |a|] in b;
      } else if i >= |a| {
        assert (a + b)[i] == b[i - |a|] && (a + b)[j] == b[j - |a|];
      }
    }
  }

  /** At most one face, on side `d` of cell (x, y). */
  predicate OneSide(faces: seq<Face>, x: int, y: int, d: Dir) {
    |faces| <= 1 && forall f :: f in faces ==> f.x == x && f.y == y && f.side == d
  }

  lemma SidesAscending(n: seq<Face>, e: seq<Face>, s: seq<Face>, w: seq<Face>, x: int, y: int)
    requires OneSide(n, x, y, North) && OneSide(e, x, y, East) && OneSide(s, x, y, South) && OneSide(w, x, y, West)
    ensures Ascending(n + e + s + w)
    ensures forall f :: f in n + e + s + w ==> f.x == x && f.y == y
  {
    ConcatAscending(n, e);
    assert forall f :: f in n + e ==> f in n || f in e;
    ConcatAscending(n + e, s);
    assert forall f :: f in n + e + s ==> f in n + e || f in s;
    ConcatAscending(n + e + s, w);
    assert forall f :: f in n + e + s + w ==> f in n + e + s || f in w;
  }

  lemma CellFacesAscending(m: Map, x: int, y: int)
    requires m.InBounds(x, y)
    ensures Ascending(CellFaces(m, x, y))
    ensures forall f :: f in CellFaces(m, x, y) ==> f.x == x && f.y == y
  {
    SidesAscending(FaceIf(m, x, y, North), FaceIf(m, x, y, East), FaceIf(m, x, y, South), FaceIf(m, x, y, West), x, y);
  }

  /** Faces left of column `x` in row `y`, followed by those of cell (x, y). */
  lemma AppendCell(a: seq<Face>, c: seq<Face>, x: int, y: int)
    requires Ascending(a) && Ascending(c)
    requires forall f :: f in a ==> f.y == y && f.x < x
    requires forall f :: f in c ==> f.x == x && f.y == y
    ensures Ascending(a + c)
    ensures forall f :: f in a + c ==> f.y == y && f.x < x + 1
  {
    ConcatAscending(a, c);
    assert forall f :: f in a + c ==> f in a || f in c;
  }

  lemma {:induction false} RowFacesAscending(m: Map, y: int, n: nat)
    requires 0 <= y < m.tiles.Length1 && n <= m.tiles.Length0
    ensures Ascending(RowFaces(m, y, n))
    ensures forall f :: f in RowFaces(m, y, n) ==> f.y == y && f.x < n
    decreases n
  {
    if n > 0 {
      var a, c := RowFaces(m, y, n - 1), CellFaces(m, n - 1, y);
      assert RowFaces(m, y, n) == a + c;
      RowFacesAscending(m, y, n - 1);
      CellFacesAscending(m, n - 1, y);
      AppendCell(a, c, n - 1, y);
    }
  }

  /** Faces of the rows above row `y`, followed by those of row `y`. */
  lemma AppendRow(a: seq<Face>, r: seq<Face>, y: int)
    requires Ascending(a) && Ascending(r)
    requires forall f :: f in a ==> f.y < y
    requires forall f :: f in r ==> f.y == y
    ensures Ascending(a + r)
    ensures forall f :: f in a + r ==> f.y < y + 1
  {
    ConcatAscending(a, r);
    assert forall f :: f in a + r ==> f in a || f in r;
  }

  /** No (cell, side) pair is emitted twice: the faces come in strict scan
      order. */
  lemma {:induction false} GridFacesAscending(m: Map, n: nat)
    requires n <= m.tiles.Length1
    ensures Ascending(GridFaces(m, n))
    ensures forall f :: f in GridFaces(m, n) ==> f.y < n
    decreases n
  {
    if n > 0 {
      GridFacesAscending(m, n - 1);
      RowFacesAscending(m, n - 1, m.tiles.Length0);
      AppendRow(GridFaces(m, n - 1), RowFaces(m, n - 1, m.tiles.Length0), n - 1);
    }
  }

  /** A grid without walls (only Void and floor) yields an empty mesh. */
  lemma {:induction false} NoWallsNoFaces(m: Map, n: nat)
    requires n <= m.tiles.Length1
    requires forall x, y :: m.InBounds(x, y) ==> m.tiles[x, y] in {Void, Floor1, Floor2}
    ensures GridFaces(m, n) == []
    decreases n
  {
    if n > 0 {
      NoWallsNoFaces(m, n - 1);
      if RowFaces(m, n - 1, m.tiles.Length0) != [] {
        var f := RowFaces(m, n - 1, m.tiles.Length0)[0];
        RowFacesExact(m, n - 1, m.tiles.Length0, f);
      }
    }
  }

  /** The `MeshBuilder`: four growing vectors. */
  class MeshBuilder {
    var indices: seq<int>
    var positions: seq<Vec3>
    var normals: seq<Vec3>
    var uvs: seq<Uv>

    function Data(): MeshData
      reads this
    {
      MeshData(indices, positions, normals, uvs)
    }

    /** An empty builder (`MeshBuilder::default`). */
    constructor ()
      ensures Data() == MeshData([], [], [], [])
    {
      indices, positions, normals, uvs := [], [], [], [];
    }

    /** Appends one vertex and returns its index. */
    method AddVertex(pos: Vec3, normal: Vec3, uv: Uv) returns (id: int)
      modifies this
      ensures id == |old(positions)|
      ensures positions == old(positions) + [pos] && normals == old(normals) + [normal]
      ensures uvs == old(uvs) + [uv] && indices == old(indices)
    {
      id := |positions|;
      positions := positions + [pos];
      normals := normals + [normal];
      uvs := uvs + [uv];
    }

    /** Appends the quad at corner `p` spanned by `d0` and `d1`, drawn with
        atlas cell `tex`: four vertices and the six indices of its two
        triangles. A well-formed builder stays well formed. */
    method AddRect(p: Vec3, d0: Axis, d1: Axis, tex: AtlasCell)
      modifies this
      ensures Data() == Append(old(Data()), Quad(|old(positions)|, p, d0, d1, tex))
      ensures |positions| == |old(positions)| + 4 && |indices| == |old(indices)| + 6
      ensures WellFormed(old(Data())) ==> WellFormed(Data())
    {
      var normal := Cross(d0, d1);
      var uv := Uv(tex.col, tex.row);
      var id0 := AddVertex(p, normal, uv);
      var id1 := AddVertex(Plus(p, d0), normal, Uv(uv.u + 1, uv.v));
      var id2 := AddVertex(Plus(Plus(p, d0), d1), normal, Uv(uv.u + 1, uv.v + 1));
      var id3 := AddVertex(Plus(p, d1), normal, Uv(uv.u, uv.v + 1));
      indices := indices + [id0, id2, id1, id0, id3, id2];
    }
  }

  lemma MeshOfSnoc(faces: seq<Face>, f: Face)
    ensures MeshOf(faces + [f]) == Append(MeshOf(faces), FaceQuad(f, 4 * |faces|))
    ensures |MeshOf(faces).positions| == 4 * |faces|
  {
    assert (faces + [f])[..|faces|] == faces;
    MeshOfShape(faces);
  }

  /** Adds the face of side `d` of cell (x, y) to the builder when the cell
      shows that side. */
  method EmitSide(m: Map, b: MeshBuilder, x: int, y: int, d: Dir, ghost done: seq<Face>)
    requires m.InBounds(x, y)
    requires b.Data() == MeshOf(done)
    modifies b
    ensures b.Data() == MeshOf(done + FaceIf(m, x, y, d))
  {
    var n := Neighbour(x, y, d);
    var t := m.TileAt(x, y);
    if t.IsSolid() && !t.IsVoid() && !m.IsSolid(n.x, n.y) {
      ghost var f := Face(x, y, d, t);
      assert FaceIf(m, x, y, d) == [f];
      MeshOfSnoc(done, f);
      var p0 := Vec3(x, 0, y);
      match d
      case North =>
        b.AddRect(p0, X, Y, t.TexId());
      case East =>
        b.AddRect(Plus(p0, X), Z, Y, t.TexId());
      case South =>
        b.AddRect(Plus(Plus(p0, X), Z), NegX, Y, t.TexId());
      case West =>
        b.AddRect(Plus(p0, Z), NegZ, Y, t.TexId());
    } else {
      assert FaceIf(m, x, y, d) == [];
      assert done + [] == done;
    }
  }

  lemma ConcatAssoc(a: seq<Face>, b: seq<Face>, c: seq<Face>)
    ensures a + b + c == a + (b + c)
  {
  }

  lemma ConcatAssoc4(a: seq<Face>, b: seq<Face>, c: seq<Face>, d: seq<Face>, e: seq<Face>)
    ensures a + b + c + d + e == a + (b + c + d + e)
  {
  }

  /** Adds the faces of cell (x, y), side by side, after those of the cells
      before it in its row. */
  method EmitCell(m: Map, b: MeshBuilder, x: int, y: int, ghost done: seq<Face>)
    requires m.InBounds(x, y)
    requires b.Data() == MeshOf(done + RowFaces(m, y, x))
    modifies b
    ensures b.Data() == MeshOf(done + RowFaces(m, y, x + 1))
  {
    ghost var pre := done + RowFaces(m, y, x);
    ghost var n, e, s, w := FaceIf(m, x, y, North), FaceIf(m, x, y, East), FaceIf(m, x, y, South), FaceIf(m, x, y, West);
    EmitSide(m, b, x, y, North, pre);
    EmitSide(m, b, x, y, East, pre + n);
    EmitSide(m, b, x, y, South, pre + n + e);
    EmitSide(m, b, x, y, West, pre + n + e + s);
    RowStep(m, y, x, done);
    ConcatAssoc4(pre, n, e, s, w);
  }

  lemma RowStep(m: Map, y: int, x: int, done: seq<Face>)
    requires m.InBounds(x, y)
    ensures done + RowFaces(m, y, x + 1) ==
      done + RowFaces(m, y, x) + (FaceIf(m, x, y, North) + FaceIf(m, x, y, East) + FaceIf(m, x, y, South) + FaceIf(m, x, y, West))
  {
    ConcatAssoc(done, RowFaces(m, y, x), CellFaces(m, x, y));
  }

  /** Adds the faces of row y, cell by cell. */
  method EmitRow(m: Map, b: MeshBuilder, y: int, ghost done: seq<Face>)
    requires 0 <= y < m.tiles.Length1
    requires b.Data() == MeshOf(done)
    modifies b
    ensures b.Data() == MeshOf(done + RowFaces(m, y, m.tiles.Length0))
  {
    assert done + RowFaces(m, y, 0) == done;
    var x := 0;
    while x < m.tiles.Length0
      invariant 0 <= x <= m.tiles.Length0
      invariant b.Data() == MeshOf(done + RowFaces(m, y, x))
    {
      EmitCell(m, b, x, y, done);
      x := x + 1;
    }
  }

  lemma GridStep(m: Map, y: int)
    requires 0 <= y < m.tiles.Length1
    ensures GridFaces(m, y + 1) == GridFaces(m, y) + RowFaces(m, y, m.tiles.Length0)
  {
  }

  /** One more row of the grid emitted. */
  method EmitGridRow(m: Map, b: MeshBuilder, y: int)
    requires 0 <= y < m.tiles.Length1
    requires b.Data() == MeshOf(GridFaces(m, y))
    modifies b
    ensures b.Data() == MeshOf(GridFaces(m, y + 1))
  {
    GridStep(m, y);
    EmitRow(m, b, y, GridFaces(m, y));
  }

  /** The mesh of a map: a quad for every side of a wall cell that faces an
      open cell, scanned row by row. MeshOfShape gives its sizes and index
      validity, GridFacesExact and GridFacesAscending which faces it holds. */
  method MapToMesh(m: Map) returns (mesh: MeshData)
    ensures mesh == MeshOf(GridFaces(m, m.tiles.Length1))
  {
    var b := new MeshBuilder();
    var y := 0;
    while y < m.tiles.Length1
      invariant 0 <= y <= m.tiles.Length1
      invariant b.Data() == MeshOf(GridFaces(m, y))
    {
      EmitGridRow(m, b, y);
      y := y + 1;
    }
    mesh := b.Data();
  }
}
