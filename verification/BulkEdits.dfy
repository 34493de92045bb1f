/** Cuboid, replace and fixgrass: bulk edits made in one go under the level lock. */
module BulkEdits {
  import opened Ring
  import opened World
  import opened Level
  import opened Edits

  datatype Box = Box(x0: int, y0: int, z0: int, x1: int, y1: int, z1: int)

  predicate Holds(box: Box, x: int, y: int, z: int) {
    box.x0 <= x <= box.x1 && box.y0 <= y <= box.y1 && box.z0 <= z <= box.z1
  }

  predicate Fitting(d: Dims, box: Box) {
    && 0 <= box.x0 <= box.x1 < d.x && 0 <= box.y0 <= box.y1 < d.y && 0 <= box.z0 <= box.z1 < d.z
  }

  datatype Span = Off | On(lo: int, hi: int)

  /** One axis of `clamp_cuboid`: put the two ends in order, give up if both lie beyond
      the same edge, and crop. */
  function ClampAxis(a: int, b: int, max: int): (s: Span)
    requires 0 <= max
    ensures s.On? ==> 0 <= s.lo <= s.hi <= max
  {
    var (lo, hi) := if a > b then (b, a) else (a, b);
    if (lo < 0 && hi < 0) || (lo > max && hi > max) then Off
    else On(if lo < 0 then 0 else lo, if hi > max then max else hi)
  }

  /** What lies on the map of the cuboid between two corners, given in any order. */
  ghost predicate Selects(d: Dims, x0: int, y0: int, z0: int, x1: int, y1: int, z1: int, box: Box) {
    && (Fitting(d, box) || box == NOTHING)
    && forall x, y, z :: Holds(box, x, y, z) <==>
         && (x0 <= x <= x1 || x1 <= x <= x0) && (y0 <= y <= y1 || y1 <= y <= y0)
         && (z0 <= z <= z1 || z1 <= z <= z0) && Inside(d, x, y, z)
  }

  const NOTHING := Box(0, 0, 0, -1, -1, -1)

  function BoxVolume(box: Box): int {
    (box.x1 - box.x0 + 1) * (box.y1 - box.y0 + 1) * (box.z1 - box.z0 + 1)
  }

  /** `clamp_cuboid`; the map has at least one cell. */
  method ClampCuboid(d: Dims, x0: int, y0: int, z0: int, x1: int, y1: int, z1: int)
    returns (ok: bool, box: Box, count: int)
    requires d.x > 0 && d.y > 0 && d.z > 0
    ensures ok <==> box != NOTHING
    ensures ok ==> Fitting(d, box) && count == BoxVolume(box)
    ensures Selects(d, x0, y0, z0, x1, y1, z1, box)
  {
    var sx, sy, sz := ClampAxis(x0, x1, d.x - 1), ClampAxis(y0, y1, d.y - 1), ClampAxis(z0, z1, d.z - 1);
    if sx.Off? || sy.Off? || sz.Off? { return false, NOTHING, 0; }
    ok := true;
    box := Box(sx.lo, sy.lo, sz.lo, sx.hi, sy.hi, sz.hi);
    count := (box.x1 - box.x0 + 1) * (box.y1 - box.y0 + 1) * (box.z1 - box.z0 + 1);
  }

  // ---- One cell of a bulk edit ---------------------------------------------------------

  /** Only the cell (x, y, z) differs, and holds `b`. */
  lemma OneCell(d: Dims, m: seq<Block>, x: int, y: int, z: int, b: Block)
    requires |m| == Volume(d) && Inside(d, x, y, z)
    ensures forall x', y', z' :: Inside(d, x', y', z') ==>
              m[Pack(d, x, y, z) := b][Pack(d, x', y', z')] ==
                if x' == x && y' == y && z' == z then b else m[Pack(d, x', y', z')]
  {
    forall x', y', z' | Inside(d, x', y', z') && Pack(d, x', y', z') == Pack(d, x, y, z)
      ensures x' == x && y' == y && z' == z
    {
      PackInjective(d, x', y', z', x, y, z);
    }
  }

  /** Writes a cell and queues the change; the lock is held for the whole command. */
  method PutLocked(l: Level, x: int, y: int, z: int, b: Block, ghost m0: seq<Block>, ghost h0: Moment<Update>)
    requires l.Valid() && Inside(l.dims, x, y, z)
    requires |m0| == Volume(l.dims) && Logged(l.dims, m0, h0, l.blocks[..], l.queue.Now())
    modifies l.blocks, l.queue
    ensures l.Valid() && Logged(l.dims, m0, h0, l.blocks[..], l.queue.Now())
    ensures l.blocks[..] == old(l.blocks[..])[Pack(l.dims, x, y, z) := b]
    ensures forall x', y', z' :: Inside(l.dims, x', y', z') ==>
              l.blocks[..][Pack(l.dims, x', y', z')] ==
                if x' == x && y' == y && z' == z then b else old(l.blocks[..])[Pack(l.dims, x', y', z')]
  {
    ghost var m, was := l.blocks[..], l.queue.Now();
    OneCell(l.dims, m, x, y, z, b);
    l.blocks[Pack(l.dims, x, y, z)] := b;
    l.queue.PrelockedUpdate(Update(x, y, z, b));
    LoggedPut(l.dims, m0, h0, m, was, l.queue.Now(), Update(x, y, z, b));
  }

  // ---- Cuboid -----------------------------------------------------------------------------

  datatype Style = Solid | Hollow | Walls | Wire

  function Count(b: bool): int { if b then 1 else 0 }

  /** Whether a cell of the box belongs to the figure. */
  predicate OnFigure(box: Box, style: Style, x: int, y: int, z: int) {
    var fx, fy, fz := x == box.x0 || x == box.x1, y == box.y0 || y == box.y1, z == box.z0 || z == box.z1;
    match style
    case Solid => true
    case Hollow => fx || fy || fz
    case Walls => fx || fz
    case Wire => Count(fx) + Count(fy) + Count(fz) >= 2
  }

  predicate Drawn(box: Box, style: Style, usable: bool, x: int, y: int, z: int) {
    usable && Holds(box, x, y, z) && OnFigure(box, style, x, y, z)
  }

  /** In a thin box the hollow figures are solid anyway, so drawing them as solid ones,
      as the source does, changes nothing. */
  lemma ThinFigures(box: Box, x: int, y: int, z: int)
    requires Holds(box, x, y, z)
    ensures box.x1 - box.x0 < 2 || box.y1 - box.y0 < 2 || box.z1 - box.z0 < 2 ==> OnFigure(box, Hollow, x, y, z)
    ensures box.x1 - box.x0 < 2 || box.z1 - box.z0 < 2 ==> OnFigure(box, Walls, x, y, z)
  {
  }

  /** The cells of the figure that precede (x, y, z) in drawing order hold `b`; all
      other cells are as they were. */
  ghost predicate DrawnUpTo(d: Dims, m: seq<Block>, m': seq<Block>, box: Box, style: Style, usable: bool, b: Block,
                            x: int, y: int, z: int)
    requires |m| == |m'| == Volume(d)
  {
    forall x', y', z' :: Inside(d, x', y', z') ==>
      m'[Pack(d, x', y', z')] ==
        if Drawn(box, style, usable, x', y', z') && Before(x', y', z', x, y, z) then b else m[Pack(d, x', y', z')]
  }

  predicate Before(x': int, y': int, z': int, x: int, y: int, z: int) {
    y' < y || (y' == y && (x' < x || (x' == x && z' < z)))
  }

  lemma DrawnOneMore(d: Dims, m: seq<Block>, m1: seq<Block>, m2: seq<Block>, box: Box, style: Style, usable: bool,
                     b: Block, x: int, y: int, z: int)
    requires |m| == |m1| == |m2| == Volume(d) && Inside(d, x, y, z)
    requires DrawnUpTo(d, m, m1, box, style, usable, b, x, y, z)
    requires forall x', y', z' :: Inside(d, x', y', z') ==>
               m2[Pack(d, x', y', z')] ==
                 if x' == x && y' == y && z' == z && Drawn(box, style, usable, x, y, z) then b
                 else m1[Pack(d, x', y', z')]
    ensures DrawnUpTo(d, m, m2, box, style, usable, b, x, y, z + 1)
  {
  }

  /** One cell of the innermost loop. */
  method DrawCell(l: Level, box: Box, style: Style, usable: bool, b: Block, x: int, y: int, z: int,
                  ghost m0: seq<Block>, ghost h0: Moment<Update>)
    requires l.Valid() && Fitting(l.dims, box) && Holds(box, x, y, z) && OnFigure(box, style, x, y, z)
    requires |m0| == Volume(l.dims) && Logged(l.dims, m0, h0, l.blocks[..], l.queue.Now())
    requires DrawnUpTo(l.dims, m0, l.blocks[..], box, style, usable, b, x, y, z)
    modifies l.blocks, l.queue
    ensures l.Valid() && Logged(l.dims, m0, h0, l.blocks[..], l.queue.Now())
    ensures DrawnUpTo(l.dims, m0, l.blocks[..], box, style, usable, b, x, y, z + 1)
  {
    ghost var m1 := l.blocks[..];
    OneCell(l.dims, m1, x, y, z, b);
    if l.At(x, y, z) == b {
      assert m1[Pack(l.dims, x, y, z) := b] == m1;
      DrawnOneMore(l.dims, m0, m1, m1, box, style, usable, b, x, y, z);
      return;
    }
    if !usable {
      DrawnOneMore(l.dims, m0, m1, m1, box, style, usable, b, x, y, z);
      return;
    }
    PutLocked(l, x, y, z, b, m0, h0);
    DrawnOneMore(l.dims, m0, m1, l.blocks[..], box, style, usable, b, x, y, z);
  }

  /** Skipping cells that are not on the figure loses nothing. */
  lemma DrawnSkip(d: Dims, m: seq<Block>, m1: seq<Block>, box: Box, style: Style, usable: bool, b: Block,
                  x: int, y: int, z: int, nx: int, ny: int, nz: int)
    requires |m| == |m1| == Volume(d)
    requires DrawnUpTo(d, m, m1, box, style, usable, b, x, y, z)
    requires forall x', y', z' ::
               Holds(box, x', y', z') && !Before(x', y', z', x, y, z) && Before(x', y', z', nx, ny, nz)
               ==> !OnFigure(box, style, x', y', z')
    requires forall x', y', z' ::
               Holds(box, x', y', z') && Before(x', y', z', x, y, z) ==> Before(x', y', z', nx, ny, nz)
    ensures DrawnUpTo(d, m, m1, box, style, usable, b, nx, ny, nz)
  {
  }

  lemma RowDone(d: Dims, m: seq<Block>, m1: seq<Block>, box: Box, style: Style, usable: bool, b: Block, x: int, y: int)
    requires |m| == |m1| == Volume(d) && box.x0 <= x <= box.x1 && box.y0 <= y <= box.y1 && box.z0 <= box.z1
    requires DrawnUpTo(d, m, m1, box, style, usable, b, x, y, box.z1 + 1)
    ensures DrawnUpTo(d, m, m1, box, style, usable, b, x + 1, y, box.z0)
  {
    DrawnSkip(d, m, m1, box, style, usable, b, x, y, box.z1 + 1, x + 1, y, box.z0);
  }

  lemma LayerDone(d: Dims, m: seq<Block>, m1: seq<Block>, box: Box, style: Style, usable: bool, b: Block, y: int)
    requires |m| == |m1| == Volume(d) && box.y0 <= y <= box.y1
    requires DrawnUpTo(d, m, m1, box, style, usable, b, box.x1 + 1, y, box.z0)
    ensures DrawnUpTo(d, m, m1, box, style, usable, b, box.x0, y + 1, box.z0)
  {
    DrawnSkip(d, m, m1, box, style, usable, b, box.x1 + 1, y, box.z0, box.x0, y + 1, box.z0);
  }

  /** The loop variable jumps to the far side if the cell is not on the figure. */
  predicate SkipsRow(box: Box, style: Style, x: int, y: int, z: int) {
    var fx, fy, fz := x == box.x0 || x == box.x1, y == box.y0 || y == box.y1, z == box.z0 || z == box.z1;
    match style
    case Solid => false
    case Hollow => !fy && !fx && !fz
    case Walls => !fx && !fz
    case Wire => Count(fx) + Count(fy) + Count(fz) < 2
  }

  lemma SkipToFarSide(d: Dims, m: seq<Block>, m1: seq<Block>, box: Box, style: Style, usable: bool, b: Block,
                      x: int, y: int, z: int)
    requires |m| == |m1| == Volume(d) && Holds(box, x, y, z) && z != box.z1
    requires style.Wire? ==> x == box.x0 || x == box.x1 || y == box.y0 || y == box.y1
    requires DrawnUpTo(d, m, m1, box, style, usable, b, x, y, z) && SkipsRow(box, style, x, y, z)
    ensures DrawnUpTo(d, m, m1, box, style, usable, b, x, y, box.z1)
  {
    DrawnSkip(d, m, m1, box, style, usable, b, x, y, z, x, y, box.z1);
  }

  lemma SkipWireRows(d: Dims, m: seq<Block>, m1: seq<Block>, box: Box, usable: bool, b: Block, x: int, y: int)
    requires |m| == |m1| == Volume(d) && box.x0 < x < box.x1 && box.y0 < y < box.y1
    requires DrawnUpTo(d, m, m1, box, Wire, usable, b, x, y, box.z0)
    ensures DrawnUpTo(d, m, m1, box, Wire, usable, b, box.x1, y, box.z0)
  {
    DrawnSkip(d, m, m1, box, Wire, usable, b, x, y, box.z0, box.x1, y, box.z0);
  }

  /** The innermost loop for a hollow figure, skips included. */
  method DrawRow(l: Level, box: Box, style: Style, usable: bool, b: Block, x: int, y: int,
                 ghost m0: seq<Block>, ghost h0: Moment<Update>)
    requires l.Valid() && Fitting(l.dims, box) && box.x0 <= x <= box.x1 && box.y0 <= y <= box.y1
    requires style.Wire? ==> x == box.x0 || x == box.x1 || y == box.y0 || y == box.y1
    requires |m0| == Volume(l.dims) && Logged(l.dims, m0, h0, l.blocks[..], l.queue.Now())
    requires DrawnUpTo(l.dims, m0, l.blocks[..], box, style, usable, b, x, y, box.z0)
    modifies l.blocks, l.queue
    ensures l.Valid() && Logged(l.dims, m0, h0, l.blocks[..], l.queue.Now())
    ensures DrawnUpTo(l.dims, m0, l.blocks[..], box, style, usable, b, x + 1, y, box.z0)
  {
    hide Logged, DrawnUpTo;
    var z := box.z0;
    while z <= box.z1
      invariant box.z0 <= z <= box.z1 + 1
      invariant l.Valid() && Logged(l.dims, m0, h0, l.blocks[..], l.queue.Now())
      invariant DrawnUpTo(l.dims, m0, l.blocks[..], box, style, usable, b, x, y, z)
    {
      if SkipsRow(box, style, x, y, z) && z != box.z1 {
        SkipToFarSide(l.dims, m0, l.blocks[..], box, style, usable, b, x, y, z);
        z := box.z1;
      } else {
        DrawCell(l, box, style, usable, b, x, y, z, m0, h0);
        z := z + 1;
      }
    }
    RowDone(l.dims, m0, l.blocks[..], box, style, usable, b, x, y);
  }

  /** Exactly the cells of the figure hold `b`; every other cell is as it was. */
  ghost predicate DrawnAll(d: Dims, m: seq<Block>, m': seq<Block>, box: Box, style: Style, usable: bool, b: Block)
    requires |m| == |m'| == Volume(d)
  {
    forall x, y, z :: Inside(d, x, y, z) ==>
      m'[Pack(d, x, y, z)] == if Drawn(box, style, usable, x, y, z) then b else m[Pack(d, x, y, z)]
  }

  lemma DrawnStart(d: Dims, m: seq<Block>, box: Box, style: Style, usable: bool, b: Block)
    requires |m| == Volume(d)
    ensures DrawnUpTo(d, m, m, box, style, usable, b, box.x0, box.y0, box.z0)
  {
  }

  lemma DrawnEnd(d: Dims, m: seq<Block>, m1: seq<Block>, box: Box, style: Style, usable: bool, b: Block)
    requires |m| == |m1| == Volume(d)
    requires DrawnUpTo(d, m, m1, box, style, usable, b, box.x0, box.y1 + 1, box.z0)
    ensures DrawnAll(d, m, m1, box, style, usable, b)
  {
  }

  /** The three nested loops of `do_cuboid`. */
  method DrawBox(l: Level, box: Box, style: Style, usable: bool, b: Block)
    requires l.Valid() && Fitting(l.dims, box)
    modifies l.blocks, l.queue
    ensures l.Valid()
    ensures Logged(l.dims, old(l.blocks[..]), old(l.queue.Now()), l.blocks[..], l.queue.Now())
    ensures DrawnAll(l.dims, old(l.blocks[..]), l.blocks[..], box, style, usable, b)
  {
    hide Logged, DrawnUpTo, DrawnAll;
    ghost var m0, h0 := l.blocks[..], l.queue.Now();
    LoggedNothing(l.dims, m0, h0, h0);
    DrawnStart(l.dims, m0, box, style, usable, b);
    var y := box.y0;
    while y <= box.y1
      invariant box.y0 <= y <= box.y1 + 1
      invariant l.Valid() && Logged(l.dims, m0, h0, l.blocks[..], l.queue.Now())
      invariant DrawnUpTo(l.dims, m0, l.blocks[..], box, style, usable, b, box.x0, y, box.z0)
    {
      var fy := y == box.y0 || y == box.y1;
      var x := box.x0;
      while x <= box.x1
        invariant box.x0 <= x <= box.x1 + 1
        invariant l.Valid() && Logged(l.dims, m0, h0, l.blocks[..], l.queue.Now())
        invariant DrawnUpTo(l.dims, m0, l.blocks[..], box, style, usable, b, x, y, box.z0)
      {
        var fx := x == box.x0 || x == box.x1;
        if style.Wire? && !fx && !fy && x != box.x1 {
          SkipWireRows(l.dims, m0, l.blocks[..], box, usable, b, x, y);
          x := box.x1;
        } else {
          DrawRow(l, box, style, usable, b, x, y, m0, h0);
          x := x + 1;
        }
      }
      LayerDone(l.dims, m0, l.blocks[..], box, style, usable, b, y);
      y := y + 1;
    }
    DrawnEnd(l.dims, m0, l.blocks[..], box, style, usable, b);
  }

  /** How many blocks the source reckons with before it asks for permission. */
  function CuboidCount(box: Box, style: Style, volume: int): int {
    var x, y, z := box.x1 - box.x0 + 1, box.y1 - box.y0 + 1, box.z1 - box.z0 + 1;
    match style
    case Solid => volume
    case Hollow => volume - (x - 2) * (y - 2) * (z - 2)
    case Walls => volume - (x - 2) * y * (z - 2)
    case Wire => x * 4 + y + 4 + z * 4 - 8
  }

  /** Hollow figures with nothing inside are drawn as solid ones. */
  function DrawnAs(box: Box, style: Style): Style {
    var x, y, z := box.x1 - box.x0 + 1, box.y1 - box.y0 + 1, box.z1 - box.z0 + 1;
    if style.Hollow? && !(x > 2 && y > 2 && z > 2) then Solid
    else if style.Walls? && !(x > 2 && z > 2) then Solid
    else style
  }

  /** `do_cuboid`.  `allowed` says whether the user may handle blocks of this kind. */
  method DoCuboid(l: Level, block: Block, style0: Style, x0: int, y0: int, z0: int, x1: int, y1: int, z1: int,
                  allowed: bool, limit: nat, exempt: bool)
    returns (done: bool, ghost box: Box)
    requires l.Valid() && l.dims.x > 0 && l.dims.y > 0 && l.dims.z > 0
    modifies l.blocks, l.queue
    ensures l.Valid() && (Known(l.dims, old(l.blocks[..])) ==> Known(l.dims, l.blocks[..]))
    ensures Logged(l.dims, old(l.blocks[..]), old(l.queue.Now()), l.blocks[..], l.queue.Now())
    ensures !done ==> l.blocks[..] == old(l.blocks[..])
    ensures Selects(l.dims, x0, y0, z0, x1, y1, z1, box)
    // a limit of 0 is no limit, and some users have none
    ensures done <==>
              && box != NOTHING
              && (limit == 0 || exempt || CuboidCount(box, DrawnAs(box, style0), BoxVolume(box)) <= limit)
    ensures done ==>
              DrawnAll(l.dims, old(l.blocks[..]), l.blocks[..], box, style0, block == AIR || allowed, Clamp(block))
  {
    hide Logged, DrawnAll, Known, OnFigure, Selects, BoxVolume;
    LoggedNothing(l.dims, l.blocks[..], l.queue.Now(), l.queue.Now());
    var ok, b, count := ClampCuboid(l.dims, x0, y0, z0, x1, y1, z1);
    box := b;
    if !ok { return false, box; }
    ThinIsSolid(b);
    var style := style0;
    var x, y, z := b.x1 - b.x0 + 1, b.y1 - b.y0 + 1, b.z1 - b.z0 + 1;
    if style.Hollow? && !(x > 2 && y > 2 && z > 2) { style := Solid; }
    if style.Walls? && !(x > 2 && z > 2) { style := Solid; }
    if !(limit == 0 || CuboidCount(b, style, count) <= limit || exempt) { return false, box; }
    ghost var m, h := l.blocks[..], l.queue.Now();
    var _ := l.queue.CheckBlockQueue();
    ghost var h1 := l.queue.Now();
    LoggedNothing(l.dims, m, h, h1);
    DrawBox(l, b, style, block == AIR || allowed, Clamp(block));
    LoggedTransitive(l.dims, m, h, m, h1, l.blocks[..], l.queue.Now());
    SameFigure(l.dims, m, l.blocks[..], b, style0, style, block == AIR || allowed, Clamp(block));
    if Known(l.dims, m) { DrawnKnown(l.dims, m, l.blocks[..], b, style0, block == AIR || allowed, Clamp(block)); }
    done := true;
  }

  lemma ThinIsSolid(box: Box)
    ensures box.x1 - box.x0 < 2 || box.y1 - box.y0 < 2 || box.z1 - box.z0 < 2 ==>
              forall x, y, z :: Holds(box, x, y, z) ==> OnFigure(box, Hollow, x, y, z)
    ensures box.x1 - box.x0 < 2 || box.z1 - box.z0 < 2 ==>
              forall x, y, z :: Holds(box, x, y, z) ==> OnFigure(box, Walls, x, y, z)
  {
    forall x, y, z | Holds(box, x, y, z) { ThinFigures(box, x, y, z); }
  }

  lemma DrawnKnown(d: Dims, m: seq<Block>, m': seq<Block>, box: Box, style: Style, usable: bool, b: Block)
    requires |m| == |m'| == Volume(d) && DrawnAll(d, m, m', box, style, usable, b) && Known(d, m) && b < BLOCKMAX
    ensures Known(d, m')
  {
  }

  lemma SameFigure(d: Dims, m: seq<Block>, m': seq<Block>, box: Box, style0: Style, style: Style, usable: bool,
                   b: Block)
    requires |m| == |m'| == Volume(d)
    requires style == style0
             || (style == Solid && forall x, y, z :: Holds(box, x, y, z) ==> OnFigure(box, style0, x, y, z))
    requires DrawnAll(d, m, m', box, style, usable, b)
    ensures DrawnAll(d, m, m', box, style0, usable, b)
  {
  }

  // ---- Replace ------------------------------------------------------------------------------

  ghost predicate ReplacedUpTo(d: Dims, m: seq<Block>, m': seq<Block>, box: Box, list: seq<Block>, rpl: Block,
                               x: int, y: int, z: int)
    requires |m| == |m'| == Volume(d)
  {
    forall x', y', z' :: Inside(d, x', y', z') ==>
      m'[Pack(d, x', y', z')] ==
        if Holds(box, x', y', z') && Before(x', y', z', x, y, z) && m[Pack(d, x', y', z')] in list
        then rpl else m[Pack(d, x', y', z')]
  }

  /** Exactly the listed blocks inside the box are replaced. */
  ghost predicate ReplacedAll(d: Dims, m: seq<Block>, m': seq<Block>, box: Box, list: seq<Block>, rpl: Block)
    requires |m| == |m'| == Volume(d)
  {
    forall x, y, z :: Inside(d, x, y, z) ==>
      m'[Pack(d, x, y, z)] ==
        if Holds(box, x, y, z) && m[Pack(d, x, y, z)] in list then rpl else m[Pack(d, x, y, z)]
  }

  method ReplaceRow(l: Level, box: Box, list: seq<Block>, rpl: Block, x: int, y: int,
                    ghost m0: seq<Block>, ghost h0: Moment<Update>)
    requires l.Valid() && Fitting(l.dims, box) && box.x0 <= x <= box.x1 && box.y0 <= y <= box.y1
    requires |m0| == Volume(l.dims) && Logged(l.dims, m0, h0, l.blocks[..], l.queue.Now())
    requires ReplacedUpTo(l.dims, m0, l.blocks[..], box, list, rpl, x, y, box.z0)
    modifies l.blocks, l.queue
    ensures l.Valid() && Logged(l.dims, m0, h0, l.blocks[..], l.queue.Now())
    ensures ReplacedUpTo(l.dims, m0, l.blocks[..], box, list, rpl, x + 1, y, box.z0)
  {
    var z := box.z0;
    while z <= box.z1
      invariant box.z0 <= z <= box.z1 + 1
      invariant l.Valid() && Logged(l.dims, m0, h0, l.blocks[..], l.queue.Now())
      invariant ReplacedUpTo(l.dims, m0, l.blocks[..], box, list, rpl, x, y, z)
    {
      ghost var m1 := l.blocks[..];
      OneCell(l.dims, m1, x, y, z, rpl);
      var found := false;
      var i := 0;
      while i < |list| && !found
        invariant 0 <= i <= |list|
        invariant found <==> l.At(x, y, z) in list[..i]
      {
        if l.At(x, y, z) == list[i] { found := true; }
        i := i + 1;
      }
      assert found <==> l.At(x, y, z) in list by {
        assert list[..i] <= list;
        if !found { assert list[..i] == list; }
      }
      if found { PutLocked(l, x, y, z, rpl, m0, h0); }
      ReplacedOneMore(l.dims, m0, m1, l.blocks[..], box, list, rpl, x, y, z);
      z := z + 1;
    }
  }

  lemma ReplacedOneMore(d: Dims, m: seq<Block>, m1: seq<Block>, m2: seq<Block>, box: Box, list: seq<Block>, rpl: Block,
                        x: int, y: int, z: int)
    requires |m| == |m1| == |m2| == Volume(d) && Inside(d, x, y, z) && Holds(box, x, y, z)
    requires ReplacedUpTo(d, m, m1, box, list, rpl, x, y, z)
    requires forall x', y', z' :: Inside(d, x', y', z') ==>
               m2[Pack(d, x', y', z')] ==
                 if x' == x && y' == y && z' == z && m1[Pack(d, x, y, z)] in list then rpl else m1[Pack(d, x', y', z')]
    ensures ReplacedUpTo(d, m, m2, box, list, rpl, x, y, z + 1)
  {
  }

  /** `replace_blocks`; a list of one block is only a faster way to do the same. */
  method ReplaceBlocks(l: Level, block: Block, list: seq<Block>, x0: int, y0: int, z0: int, x1: int, y1: int, z1: int,
                       limit: nat, exempt: bool)
    returns (done: bool, ghost box: Box)
    requires l.Valid() && l.dims.x > 0 && l.dims.y > 0 && l.dims.z > 0
    modifies l.blocks, l.queue
    ensures l.Valid() && (Known(l.dims, old(l.blocks[..])) ==> Known(l.dims, l.blocks[..]))
    ensures Logged(l.dims, old(l.blocks[..]), old(l.queue.Now()), l.blocks[..], l.queue.Now())
    ensures !done ==> l.blocks[..] == old(l.blocks[..])
    ensures Selects(l.dims, x0, y0, z0, x1, y1, z1, box)
    ensures done <==> |list| > 0 && box != NOTHING && (limit == 0 || exempt || BoxVolume(box) <= limit)
    ensures done ==> ReplacedAll(l.dims, old(l.blocks[..]), l.blocks[..], box, list, Clamp(block))
  {
    hide Logged, Selects, BoxVolume;
    LoggedNothing(l.dims, l.blocks[..], l.queue.Now(), l.queue.Now());
    var ok, b, count := ClampCuboid(l.dims, x0, y0, z0, x1, y1, z1);
    box := b;
    if |list| < 1 || !ok || !(limit == 0 || count <= limit || exempt) { return false, box; }
    var rpl := Clamp(block);
    ghost var m0, h0 := l.blocks[..], l.queue.Now();
    var _ := l.queue.CheckBlockQueue();
    LoggedNothing(l.dims, m0, h0, l.queue.Now());
    var y := b.y0;
    while y <= b.y1
      invariant b.y0 <= y <= b.y1 + 1
      invariant l.Valid() && Logged(l.dims, m0, h0, l.blocks[..], l.queue.Now())
      invariant ReplacedUpTo(l.dims, m0, l.blocks[..], b, list, rpl, b.x0, y, b.z0)
    {
      var x := b.x0;
      while x <= b.x1
        invariant b.x0 <= x <= b.x1 + 1
        invariant l.Valid() && Logged(l.dims, m0, h0, l.blocks[..], l.queue.Now())
        invariant ReplacedUpTo(l.dims, m0, l.blocks[..], b, list, rpl, x, y, b.z0)
      {
        ReplaceRow(l, b, list, rpl, x, y, m0, h0);
        x := x + 1;
      }
      y := y + 1;
    }
    done := true;
  }

  // ---- Fixgrass -------------------------------------------------------------------------------

  /** What fixgrass makes of a block, given the one above it. */
  function Fixed(defs: seq<BlockDef>, b: Block, above: Block): Block
    requires DefsOk(defs) && b < BLOCKMAX
  {
    if !defs[Clamp(above)].transmitsLight && defs[b].dirtBlock != 0 then defs[b].dirtBlock
    else if defs[Clamp(above)].transmitsLight && defs[b].grassBlock != 0 then defs[b].grassBlock
    else b
  }

  ghost predicate FixedUpTo(d: Dims, defs: seq<BlockDef>, m: seq<Block>, m': seq<Block>, box: Box, x: int, y: int,
                            z: int)
    requires |m| == |m'| == Volume(d) && DefsOk(defs) && Known(d, m)
  {
    forall x', y', z' :: Inside(d, x', y', z') ==>
      m'[Pack(d, x', y', z')] ==
        if Holds(box, x', y', z') && Before(x', y', z', x, y, z)
        then Fixed(defs, m[Pack(d, x', y', z')], Above(d, m, x', y', z')) else m[Pack(d, x', y', z')]
  }

  /** Every cell of the box is corrected by the light that the old map lets through, and
      no cell is corrected by the result of another correction. */
  ghost predicate FixedAll(d: Dims, defs: seq<BlockDef>, m: seq<Block>, m': seq<Block>, box: Box)
    requires |m| == |m'| == Volume(d) && DefsOk(defs) && Known(d, m)
  {
    forall x, y, z :: Inside(d, x, y, z) ==>
      m'[Pack(d, x, y, z)] ==
        if Holds(box, x, y, z) then Fixed(defs, m[Pack(d, x, y, z)], Above(d, m, x, y, z)) else m[Pack(d, x, y, z)]
  }

  lemma FixedOneMore(d: Dims, defs: seq<BlockDef>, m: seq<Block>, m1: seq<Block>, m2: seq<Block>, box: Box,
                     x: int, y: int, z: int)
    requires |m| == |m1| == |m2| == Volume(d) && DefsOk(defs) && Known(d, m) && Inside(d, x, y, z)
             && Holds(box, x, y, z)
    requires FixedUpTo(d, defs, m, m1, box, x, y, z)
    requires forall x', y', z' :: Inside(d, x', y', z') ==>
               m2[Pack(d, x', y', z')] ==
                 if x' == x && y' == y && z' == z
                 then Fixed(defs, m[Pack(d, x, y, z)], Above(d, m, x, y, z)) else m1[Pack(d, x', y', z')]
    ensures FixedUpTo(d, defs, m, m2, box, x, y, z + 1)
  {
  }

  /** Case by case: under something opaque grass is dirt, in the light dirt is grass, and all the
      rest stays. */
  lemma FixgrassMeans(d: Dims, defs: seq<BlockDef>, m: seq<Block>, m': seq<Block>, box: Box, x: int, y: int, z: int)
    requires |m| == |m'| == Volume(d) && DefsOk(defs) && Known(d, m) && FixedAll(d, defs, m, m', box)
    requires Inside(d, x, y, z)
    ensures var (b, b') := (m[Pack(d, x, y, z)], m'[Pack(d, x, y, z)]);
            var lit := if y + 1 < d.y then defs[m[Pack(d, x, y + 1, z)]].transmitsLight else defs[AIR].transmitsLight;
            && (!Holds(box, x, y, z) ==> b' == b)
            && (Holds(box, x, y, z) && !lit ==> b' == if defs[b].dirtBlock != 0 then defs[b].dirtBlock else b)
            && (Holds(box, x, y, z) && lit ==> b' == if defs[b].grassBlock != 0 then defs[b].grassBlock else b)
  {
    assert y + 1 < d.y ==> m[Pack(d, x, y + 1, z)] < BLOCKMAX;
  }

  /** One cell of `fixgrass_blocks`. */
  method FixCell(l: Level, box: Box, x: int, y: int, z: int, ghost m0: seq<Block>, ghost h0: Moment<Update>)
    requires l.Valid() && Fitting(l.dims, box) && Holds(box, x, y, z)
    requires |m0| == Volume(l.dims) && Logged(l.dims, m0, h0, l.blocks[..], l.queue.Now()) && Known(l.dims, m0)
    requires FixedUpTo(l.dims, l.defs, m0, l.blocks[..], box, x, y, z)
    modifies l.blocks, l.queue
    ensures l.Valid() && Logged(l.dims, m0, h0, l.blocks[..], l.queue.Now())
    ensures FixedUpTo(l.dims, l.defs, m0, l.blocks[..], box, x, y, z + 1)
  {
    ghost var m1 := l.blocks[..];
    var old_b: Block := l.At(x, y, z);
    assert old_b == m0[Pack(l.dims, x, y, z)];
    var b: Block := old_b;
    var above := AIR;
    if y < l.dims.y - 1 {
      above := Clamp(l.At(x, y + 1, z));
      assert l.At(x, y + 1, z) == m0[Pack(l.dims, x, y + 1, z)];
    }
    if l.defs[b].dirtBlock != 0 || l.defs[b].grassBlock != 0 {
      var transmitsLight := l.defs[above].transmitsLight;
      if !transmitsLight && l.defs[b].dirtBlock != 0 && l.defs[b].dirtBlock != b {
        b := l.defs[b].dirtBlock;
      } else if transmitsLight && l.defs[b].grassBlock != 0 && l.defs[b].grassBlock != b {
        b := l.defs[b].grassBlock;
      }
    }
    assert b == Fixed(l.defs, old_b, Above(l.dims, m0, x, y, z));
    OneCell(l.dims, m1, x, y, z, b);
    if old_b == b {
      assert m1[Pack(l.dims, x, y, z) := b] == m1;
    } else {
      PutLocked(l, x, y, z, b, m0, h0);
    }
    FixedOneMore(l.dims, l.defs, m0, m1, l.blocks[..], box, x, y, z);
  }

  /** `fixgrass_blocks` */
  method FixgrassBlocks(l: Level, x0: int, y0: int, z0: int, x1: int, y1: int, z1: int, limit: nat, exempt: bool)
    returns (done: bool, ghost box: Box)
    requires l.Valid() && l.dims.x > 0 && l.dims.y > 0 && l.dims.z > 0 && Known(l.dims, l.blocks[..])
    modifies l.blocks, l.queue
    ensures l.Valid() && Known(l.dims, l.blocks[..])
    ensures Logged(l.dims, old(l.blocks[..]), old(l.queue.Now()), l.blocks[..], l.queue.Now())
    ensures !done ==> l.blocks[..] == old(l.blocks[..])
    ensures Selects(l.dims, x0, y0, z0, x1, y1, z1, box)
    ensures done <==> box != NOTHING && (limit == 0 || exempt || BoxVolume(box) <= limit)
    ensures done ==> FixedAll(l.dims, l.defs, old(l.blocks[..]), l.blocks[..], box)
  {
    hide Inv, Logged, Selects, BoxVolume;
    LoggedNothing(l.dims, l.blocks[..], l.queue.Now(), l.queue.Now());
    var ok, b, count := ClampCuboid(l.dims, x0, y0, z0, x1, y1, z1);
    box := b;
    if !ok || !(limit == 0 || count <= limit || exempt) { return false, box; }
    ghost var m0, h0 := l.blocks[..], l.queue.Now();
    var _ := l.queue.CheckBlockQueue();
    LoggedNothing(l.dims, m0, h0, l.queue.Now());
    var y := b.y0;
    while y <= b.y1
      invariant b.y0 <= y <= b.y1 + 1
      invariant l.Valid() && Logged(l.dims, m0, h0, l.blocks[..], l.queue.Now())
      invariant FixedUpTo(l.dims, l.defs, m0, l.blocks[..], b, b.x0, y, b.z0)
    {
      var x := b.x0;
      while x <= b.x1
        invariant b.x0 <= x <= b.x1 + 1
        invariant l.Valid() && Logged(l.dims, m0, h0, l.blocks[..], l.queue.Now())
        invariant FixedUpTo(l.dims, l.defs, m0, l.blocks[..], b, x, y, b.z0)
      {
        var z := b.z0;
        while z <= b.z1
          invariant b.z0 <= z <= b.z1 + 1
          invariant l.Valid() && Logged(l.dims, m0, h0, l.blocks[..], l.queue.Now())
          invariant FixedUpTo(l.dims, l.defs, m0, l.blocks[..], b, x, y, z)
        {
          FixCell(l, b, x, y, z, m0, h0);
          z := z + 1;
        }
        x := x + 1;
      }
      y := y + 1;
    }
    done := true;
  }

  // ---- Any sequence of edits ----------------------------------------------------------------------

  datatype Command =
    | Single(x: int, y: int, z: int, mode: int, block: Block)
    | Cuboid(style: Style, block: Block, x0: int, y0: int, z0: int, x1: int, y1: int, z1: int, allowed: bool)
    | Replace(list: seq<Block>, block: Block, x0: int, y0: int, z0: int, x1: int, y1: int, z1: int)
    | Fixgrass(x0: int, y0: int, z0: int, x1: int, y1: int, z1: int)

  method Perform(l: Level, c: Command, limit: nat, exempt: bool)
    requires l.Valid() && l.dims.x > 0 && l.dims.y > 0 && l.dims.z > 0 && Known(l.dims, l.blocks[..])
    modifies l.blocks, l.queue
    ensures l.Valid() && Known(l.dims, l.blocks[..])
    ensures Logged(l.dims, old(l.blocks[..]), old(l.queue.Now()), l.blocks[..], l.queue.Now())
  {
    match c {
      case Single(x, y, z, mode, block) =>
        UpdateBlock(l, x, y, z, mode, block);
      case Cuboid(style, block, x0, y0, z0, x1, y1, z1, allowed) =>
        var _, _ := DoCuboid(l, block, style, x0, y0, z0, x1, y1, z1, allowed, limit, exempt);
      case Replace(list, block, x0, y0, z0, x1, y1, z1) =>
        var _, _ := ReplaceBlocks(l, block, list, x0, y0, z0, x1, y1, z1, limit, exempt);
      case Fixgrass(x0, y0, z0, x1, y1, z1) =>
        var _, _ := FixgrassBlocks(l, x0, y0, z0, x1, y1, z1, limit, exempt);
    }
  }

  /** After any sequence of edits, the queue's history explains the whole map. */
  method PerformAll(l: Level, commands: seq<Command>, limit: nat, exempt: bool)
    requires l.Valid() && l.dims.x > 0 && l.dims.y > 0 && l.dims.z > 0 && Known(l.dims, l.blocks[..])
    modifies l.blocks, l.queue
    ensures l.Valid() && Known(l.dims, l.blocks[..])
    ensures Logged(l.dims, old(l.blocks[..]), old(l.queue.Now()), l.blocks[..], l.queue.Now())
  {
    ghost var m0, h0 := l.blocks[..], l.queue.Now();
    LoggedNothing(l.dims, m0, h0, h0);
    for i := 0 to |commands|
      invariant l.Valid() && Known(l.dims, l.blocks[..])
      invariant Logged(l.dims, m0, h0, l.blocks[..], l.queue.Now())
    {
      ghost var m1, h1 := l.blocks[..], l.queue.Now();
      Perform(l, commands[i], limit, exempt);
      LoggedTransitive(l.dims, m0, h0, m1, h1, l.blocks[..], l.queue.Now());
    }
  }
}
