/** The figures that `do_cuboid` draws: which cells they have, and how many. */
module Figures {
  import opened World
  import opened BulkEdits

  // ---- Which ------------------------------------------------------------------------------

  /** The two neighbours of a cell along one axis. */
  predicate EndsX(box: Box, x: int, y: int, z: int) { !Holds(box, x - 1, y, z) || !Holds(box, x + 1, y, z) }

  predicate EndsY(box: Box, x: int, y: int, z: int) { !Holds(box, x, y - 1, z) || !Holds(box, x, y + 1, z) }

  predicate EndsZ(box: Box, x: int, y: int, z: int) { !Holds(box, x, y, z - 1) || !Holds(box, x, y, z + 1) }

  /** A cell of the box is on the hollow figure if the box ends beside it, in any direction; on
      the walls, if it does to one of the four sides; and on the wire frame, if it does along two
      axes at least. */
  lemma FigureMeans(box: Box, x: int, y: int, z: int)
    requires Holds(box, x, y, z)
    ensures OnFigure(box, Solid, x, y, z)
    ensures OnFigure(box, Hollow, x, y, z) <==> EndsX(box, x, y, z) || EndsY(box, x, y, z) || EndsZ(box, x, y, z)
    ensures OnFigure(box, Walls, x, y, z) <==> EndsX(box, x, y, z) || EndsZ(box, x, y, z)
    ensures OnFigure(box, Wire, x, y, z) <==>
              || (EndsX(box, x, y, z) && EndsY(box, x, y, z))
              || (EndsY(box, x, y, z) && EndsZ(box, x, y, z))
              || (EndsX(box, x, y, z) && EndsZ(box, x, y, z))
  {
  }

  // ---- How many ---------------------------------------------------------------------------

  /** Of `n` cells from the lower end of one that has `size`, those that are an end of it. */
  function Ends(n: nat, size: nat): (e: nat)
    requires n <= size
    ensures e <= n
  {
    if n == 0 then 0 else if n < size || size == 1 then 1 else 2
  }

  /** The cells of the figure among the first `n` of a row. */
  function InRow(box: Box, style: Style, x: int, y: int, n: nat): nat {
    if n == 0 then 0
    else InRow(box, style, x, y, n - 1) + if OnFigure(box, style, x, y, box.z0 + n - 1) then 1 else 0
  }

  /** ... in the first `n` rows of a layer. */
  function InLayer(box: Box, style: Style, y: int, n: nat): nat
    requires box.z0 <= box.z1
  {
    if n == 0 then 0
    else InLayer(box, style, y, n - 1) + InRow(box, style, box.x0 + n - 1, y, box.z1 - box.z0 + 1)
  }

  /** ... in the first `n` layers. */
  function InLayers(box: Box, style: Style, n: nat): nat
    requires box.z0 <= box.z1 && box.x0 <= box.x1
  {
    if n == 0 then 0
    else InLayers(box, style, n - 1) + InLayer(box, style, box.y0 + n - 1, box.x1 - box.x0 + 1)
  }

  /** What a row comes to: all of it, its ends, or nothing. */
  function RowCount(style: Style, fx: bool, fy: bool, n: nat, size: nat): nat
    requires n <= size
  {
    match style
    case Solid => n
    case Hollow => if fx || fy then n else Ends(n, size)
    case Walls => if fx then n else Ends(n, size)
    case Wire => if fx && fy then n else if fx || fy then Ends(n, size) else 0
  }

  lemma {:induction false} RowIs(box: Box, style: Style, x: int, y: int, n: nat)
    requires box.z0 <= box.z1 && n <= box.z1 - box.z0 + 1
    ensures InRow(box, style, x, y, n)
         == RowCount(style, x == box.x0 || x == box.x1, y == box.y0 || y == box.y1, n, box.z1 - box.z0 + 1)
  {
    if n > 0 { RowIs(box, style, x, y, n - 1); }
  }

  /** Rows at the ends of a layer have `a` cells each, and the others `b`. */
  function LayerCount(style: Style, fy: bool, nx: nat, nz: nat, n: nat): nat
    requires n <= nx
  {
    var (a, b) := (RowCount(style, true, fy, nz, nz), RowCount(style, false, fy, nz, nz));
    a * Ends(n, nx) + b * (n - Ends(n, nx))
  }

  lemma {:induction false} LayerIs(box: Box, style: Style, y: int, n: nat)
    requires box.z0 <= box.z1 && box.x0 <= box.x1 && n <= box.x1 - box.x0 + 1
    ensures InLayer(box, style, y, n)
         == LayerCount(style, y == box.y0 || y == box.y1, box.x1 - box.x0 + 1, box.z1 - box.z0 + 1, n)
  {
    hide RowCount;
    if n > 0 {
      var (nx, nz, x) := (box.x1 - box.x0 + 1, box.z1 - box.z0 + 1, box.x0 + n - 1);
      LayerIs(box, style, y, n - 1);
      RowIs(box, style, x, y, nz);
      var fy := y == box.y0 || y == box.y1;
      OneMore(RowCount(style, true, fy, nz, nz), RowCount(style, false, fy, nz, nz), n, nx);
    }
  }

  /** One more of `size`: an end of it or not. */
  lemma OneMore(a: int, b: int, n: nat, size: nat)
    requires 0 < n <= size
    ensures a * Ends(n, size) + b * (n - Ends(n, size))
         == a * Ends(n - 1, size) + b * (n - 1 - Ends(n - 1, size)) + if n == 1 || n == size then a else b
  {
    var (e0, e) := (Ends(n - 1, size), Ends(n, size));
    if n == 1 || n == size {
      assert e == e0 + 1 && n - e == n - 1 - e0;
      assert a * (e0 + 1) == a * e0 + a;
    } else {
      assert e == e0;
      assert b * (n - e) == b * (n - 1 - e0) + b;
    }
  }

  function BoxCount(style: Style, nx: nat, ny: nat, nz: nat, n: nat): nat
    requires n <= ny
  {
    LayerCount(style, true, nx, nz, nx) * Ends(n, ny) + LayerCount(style, false, nx, nz, nx) * (n - Ends(n, ny))
  }

  lemma {:induction false} LayersAre(box: Box, style: Style, n: nat)
    requires box.z0 <= box.z1 && box.x0 <= box.x1 && box.y0 <= box.y1 && n <= box.y1 - box.y0 + 1
    ensures InLayers(box, style, n)
         == BoxCount(style, box.x1 - box.x0 + 1, box.y1 - box.y0 + 1, box.z1 - box.z0 + 1, n)
  {
    hide LayerCount;
    if n > 0 {
      var (nx, ny, nz, y) := (box.x1 - box.x0 + 1, box.y1 - box.y0 + 1, box.z1 - box.z0 + 1, box.y0 + n - 1);
      LayersAre(box, style, n - 1);
      LayerIs(box, style, y, nx);
      OneMore(LayerCount(style, true, nx, nz, nx), LayerCount(style, false, nx, nz, nx), n, ny);
    }
  }

  /** How many cells a figure has. */
  function Cells(box: Box, style: Style): nat
    requires box.x0 <= box.x1 && box.y0 <= box.y1 && box.z0 <= box.z1
  {
    InLayers(box, style, box.y1 - box.y0 + 1)
  }

  lemma SolidLayer(nx: nat, nz: nat, fy: bool)
    ensures LayerCount(Solid, fy, nx, nz, nx) == nx * nz
  {
    assert nz * Ends(nx, nx) + nz * (nx - Ends(nx, nx)) == nz * nx;
  }

  lemma SolidCount(nx: nat, ny: nat, nz: nat)
    ensures BoxCount(Solid, nx, ny, nz, ny) == nx * ny * nz
  {
    hide LayerCount;
    SolidLayer(nx, nz, true);
    SolidLayer(nx, nz, false);
    assert nx * nz * Ends(ny, ny) + nx * nz * (ny - Ends(ny, ny)) == nx * nz * ny;
  }

  lemma HollowCount(nx: nat, ny: nat, nz: nat)
    requires nx > 2 && ny > 2 && nz > 2
    ensures BoxCount(Hollow, nx, ny, nz, ny) == nx * ny * nz - (nx - 2) * (ny - 2) * (nz - 2)
  {
    var (a, b, c) := (nx - 2, ny - 2, nz - 2);
    assert LayerCount(Hollow, true, nx, nz, nx) == nz * 2 + nz * a == nx * nz;
    assert LayerCount(Hollow, false, nx, nz, nx) == nz * 2 + 2 * a;
    Expand(a, b, c);
  }

  lemma Expand(a: int, b: int, c: int)
    ensures (a + 2) * (c + 2) * 2 + ((c + 2) * 2 + 2 * a) * b == (a + 2) * (b + 2) * (c + 2) - a * b * c
    ensures ((c + 2) * 2 + 2 * a) * (b + 2) == (a + 2) * (b + 2) * (c + 2) - a * (b + 2) * c
  {
    assert (a + 2) * (c + 2) == a * c + 2 * a + 2 * c + 4;
    assert (a + 2) * (b + 2) * (c + 2) == (a + 2) * (c + 2) * (b + 2);
    assert (a * c + 2 * a + 2 * c + 4) * (b + 2) == a * c * b + 2 * (a * c) + (2 * a + 2 * c + 4) * (b + 2);
    assert a * b * c == a * c * b;
    assert a * (b + 2) * c == a * c * (b + 2) == a * c * b + 2 * (a * c);
  }

  lemma WallsCount(nx: nat, ny: nat, nz: nat)
    requires nx > 2 && nz > 2
    ensures BoxCount(Walls, nx, ny, nz, ny) == nx * ny * nz - (nx - 2) * ny * (nz - 2)
  {
    var (a, c) := (nx - 2, nz - 2);
    var layer := nz * 2 + 2 * a;
    assert LayerCount(Walls, true, nx, nz, nx) == layer == LayerCount(Walls, false, nx, nz, nx);
    assert layer * Ends(ny, ny) + layer * (ny - Ends(ny, ny)) == layer * ny;
    Expand(a, ny - 2, c);
  }

  lemma ThinCount(style: Style, nx: nat, ny: nat, nz: nat)
    requires nx > 0 && ny > 0 && nz > 0
    requires (style.Hollow? && (nx <= 2 || ny <= 2 || nz <= 2)) || (style.Walls? && (nx <= 2 || nz <= 2))
    ensures BoxCount(style, nx, ny, nz, ny) == nx * ny * nz
  {
    SolidCount(nx, ny, nz);
    if nx <= 2 || nz <= 2 {
      assert LayerCount(style, true, nx, nz, nx) == LayerCount(Solid, true, nx, nz, nx);
      assert LayerCount(style, false, nx, nz, nx) == LayerCount(Solid, false, nx, nz, nx);
    } else {
      assert Ends(ny, ny) == ny;
      assert LayerCount(style, true, nx, nz, nx) == LayerCount(Solid, true, nx, nz, nx);
      assert LayerCount(style, false, nx, nz, nx) * (ny - Ends(ny, ny)) == 0;
    }
  }

  lemma WireCount(nx: nat, ny: nat, nz: nat)
    requires nx >= 2 && ny >= 2 && nz >= 2
    ensures BoxCount(Wire, nx, ny, nz, ny) == 4 * nx + 4 * ny + 4 * nz - 16
  {
    assert LayerCount(Wire, true, nx, nz, nx) == nz * 2 + 2 * (nx - 2);
    assert LayerCount(Wire, false, nx, nz, nx) == 4;
  }

  /** The number of blocks that has to be permitted is the number of cells of the figure, for
      all but the wire frame. */
  lemma CountMeans(box: Box, style: Style)
    requires box.x0 <= box.x1 && box.y0 <= box.y1 && box.z0 <= box.z1 && !style.Wire?
    ensures CuboidCount(box, DrawnAs(box, style), BoxVolume(box)) == Cells(box, style)
  {
    hide BoxCount;
    var (nx, ny, nz) := (box.x1 - box.x0 + 1, box.y1 - box.y0 + 1, box.z1 - box.z0 + 1);
    LayersAre(box, style, ny);
    SolidCount(nx, ny, nz);
    if style.Hollow? && nx > 2 && ny > 2 && nz > 2 {
      HollowCount(nx, ny, nz);
    } else if style.Walls? && nx > 2 && nz > 2 {
      WallsCount(nx, ny, nz);
    } else if !style.Solid? {
      ThinCount(style, nx, ny, nz);
    }
  }

  /** The frame's cells are counted right exactly if the box is four blocks high. */
  lemma WireMiscounted(box: Box)
    requires box.x0 < box.x1 && box.y0 < box.y1 && box.z0 < box.z1
    ensures CuboidCount(box, DrawnAs(box, Wire), BoxVolume(box)) == Cells(box, Wire) <==> box.y1 - box.y0 + 1 == 4
  {
    hide BoxCount;
    LayersAre(box, Wire, box.y1 - box.y0 + 1);
    WireCount(box.x1 - box.x0 + 1, box.y1 - box.y0 + 1, box.z1 - box.z0 + 1);
  }
}
