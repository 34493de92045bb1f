/** Places to stand on a map, and the walk up or down to the ground of one column. */
module Landing {
  import opened World

  const ACTIVE_WATER := 8
  const STILL_WATER := 9
  const ACTIVE_LAVA := 10
  const STILL_LAVA := 11

  /** `get_block_checked` */
  function Get(d: Dims, m: seq<Block>, b: Block, x: int, y: int, z: int): Block
    requires |m| == Volume(d)
  {
    if x < 0 || z < 0 || x >= d.x || z >= d.z then b
    else if y < 0 || y >= d.y then b
    else m[Pack(d, x, y, z)]
  }

  predicate IsLiquid(b: Block) {
    b == STILL_WATER || b == ACTIVE_WATER || b == STILL_LAVA || b == ACTIVE_LAVA
  }

  /** One cell of the flat space: solid below, air at the level of feet and head. */
  predicate IsRoom(d: Dims, m: seq<Block>, x: int, y: int, z: int, dx: int, dy: int, dz: int)
    requires |m| == Volume(d)
  {
    (Get(d, m, AIR, x + dx, y + dy, z + dz) != AIR) == (dy == -1)
  }

  predicate Near(dx: int, dy: int, dz: int) { -1 <= dx <= 1 && -1 <= dy <= 1 && -1 <= dz <= 1 }

  /** A place to stand: air for feet and head over a floor of three by three cells, all of
      them on the map and solid, and no liquid right below. */
  ghost predicate IsLanding(d: Dims, m: seq<Block>, x: int, y: int, z: int)
    requires |m| == Volume(d)
  {
    && (forall dx, dy, dz {:trigger IsRoom(d, m, x, y, z, dx, dy, dz)} ::
          Near(dx, dy, dz) ==> IsRoom(d, m, x, y, z, dx, dy, dz))
    && !IsLiquid(Get(d, m, AIR, x, y - 1, z))
  }

  lemma LandingColumn(d: Dims, m: seq<Block>, x: int, y: int, z: int, x': int, z': int)
    requires |m| == Volume(d) && IsLanding(d, m, x, y, z)
    requires x - 1 <= x' <= x + 1 && z - 1 <= z' <= z + 1
    ensures Inside(d, x', y - 1, z') && m[Pack(d, x', y - 1, z')] != AIR
    ensures Inside(d, x', y, z') ==> m[Pack(d, x', y, z')] == AIR
    ensures Inside(d, x', y + 1, z') ==> m[Pack(d, x', y + 1, z')] == AIR
  {
    hide Pack, Volume;
    assert IsRoom(d, m, x, y, z, x' - x, -1, z' - z);
    assert IsRoom(d, m, x, y, z, x' - x, 0, z' - z);
    assert IsRoom(d, m, x, y, z, x' - x, 1, z' - z);
  }

  /** What that means cell by cell: a floor of nine cells on the map that are not air, none of
      the eighteen cells above it filled, and neither water nor lava in the middle of it. */
  lemma LandingMeans(d: Dims, m: seq<Block>, x: int, y: int, z: int)
    requires |m| == Volume(d)
    ensures IsLanding(d, m, x, y, z) <==>
              && (forall x', y', z' :: x - 1 <= x' <= x + 1 && y' == y - 1 && z - 1 <= z' <= z + 1 ==>
                    Inside(d, x', y', z') && m[Pack(d, x', y', z')] != 0)
              && (forall x', y', z' ::
                    x - 1 <= x' <= x + 1 && y <= y' <= y + 1 && z - 1 <= z' <= z + 1 && Inside(d, x', y', z') ==>
                    m[Pack(d, x', y', z')] == 0)
              && Inside(d, x, y - 1, z) && m[Pack(d, x, y - 1, z)] !in {8, 9, 10, 11}
  {
    hide Pack, Volume, IsRoom;
    if IsLanding(d, m, x, y, z) {
      forall x', y', z' | x - 1 <= x' <= x + 1 && y' == y - 1 && z - 1 <= z' <= z + 1
        ensures Inside(d, x', y', z') && m[Pack(d, x', y', z')] != AIR
      {
        LandingColumn(d, m, x, y, z, x', z');
      }
      forall x', y', z' | x - 1 <= x' <= x + 1 && y <= y' <= y + 1 && z - 1 <= z' <= z + 1 && Inside(d, x', y', z')
        ensures m[Pack(d, x', y', z')] == AIR
      {
        LandingColumn(d, m, x, y, z, x', z');
      }
      LandingColumn(d, m, x, y, z, x, z);
    }
    if (forall x', y', z' :: x - 1 <= x' <= x + 1 && y' == y - 1 && z - 1 <= z' <= z + 1 ==>
          Inside(d, x', y', z') && m[Pack(d, x', y', z')] != 0)
       && (forall x', y', z' ::
             x - 1 <= x' <= x + 1 && y <= y' <= y + 1 && z - 1 <= z' <= z + 1 && Inside(d, x', y', z') ==>
             m[Pack(d, x', y', z')] == 0)
    {
      forall dx, dy, dz | Near(dx, dy, dz) ensures IsRoom(d, m, x, y, z, dx, dy, dz) {
        RoomIs(d, m, x, y, z, dx, dy, dz);
      }
    }
  }

  lemma RoomIs(d: Dims, m: seq<Block>, x: int, y: int, z: int, dx: int, dy: int, dz: int)
    requires |m| == Volume(d)
    ensures IsRoom(d, m, x, y, z, dx, dy, dz) <==>
              if dy == -1 then Inside(d, x + dx, y + dy, z + dz) && m[Pack(d, x + dx, y + dy, z + dz)] != 0
              else Inside(d, x + dx, y + dy, z + dz) ==> m[Pack(d, x + dx, y + dy, z + dz)] == 0
  {
    hide Pack, Volume;
  }

  /** The flat space is checked one cell after the other. */
  method IsFlat(d: Dims, m: seq<Block>, x: int, y: int, z: int) returns (flat: bool)
    requires |m| == Volume(d)
    ensures flat <==> forall dx, dy, dz {:trigger IsRoom(d, m, x, y, z, dx, dy, dz)} ::
              Near(dx, dy, dz) ==> IsRoom(d, m, x, y, z, dx, dy, dz)
  {
    hide IsRoom;
    flat := true;
    var dy := -1;
    while dy < 2 && flat
      invariant -1 <= dy <= 2
      invariant flat ==> forall a, b, c {:trigger IsRoom(d, m, x, y, z, a, b, c)} ::
                  Near(a, b, c) && b < dy ==> IsRoom(d, m, x, y, z, a, b, c)
      invariant !flat ==> exists a, b, c {:trigger IsRoom(d, m, x, y, z, a, b, c)} ::
                  Near(a, b, c) && !IsRoom(d, m, x, y, z, a, b, c)
    {
      var dx := -1;
      while dx < 2 && flat
        invariant -1 <= dx <= 2
        invariant flat ==> forall a, b, c {:trigger IsRoom(d, m, x, y, z, a, b, c)} ::
                    Near(a, b, c) && (b < dy || (b == dy && a < dx))
                    ==> IsRoom(d, m, x, y, z, a, b, c)
        invariant !flat ==> exists a, b, c {:trigger IsRoom(d, m, x, y, z, a, b, c)} ::
                    Near(a, b, c) && !IsRoom(d, m, x, y, z, a, b, c)
      {
        var dz := -1;
        while dz < 2 && flat
          invariant -1 <= dz <= 2
          invariant flat ==> forall a, b, c {:trigger IsRoom(d, m, x, y, z, a, b, c)} ::
                      Near(a, b, c) && (b < dy || (b == dy && (a < dx || (a == dx && c < dz))))
                      ==> IsRoom(d, m, x, y, z, a, b, c)
          invariant !flat ==> exists a, b, c {:trigger IsRoom(d, m, x, y, z, a, b, c)} ::
                      Near(a, b, c) && !IsRoom(d, m, x, y, z, a, b, c)
        {
          if !IsRoom(d, m, x, y, z, dx, dy, dz) { flat := false; }
          dz := dz + 1;
        }
        dx := dx + 1;
      }
      dy := dy + 1;
    }
  }

  // ---- The walk in one column -----------------------------------------------------------

  /** Room for feet and head. */
  predicate Open(d: Dims, m: seq<Block>, x: int, y: int, z: int)
    requires |m| == Volume(d)
  {
    Get(d, m, AIR, x, y, z) == AIR && Get(d, m, AIR, x, y + 1, z) == AIR
  }

  /** The lowest place at `y` or above that is open. */
  function Risen(d: Dims, m: seq<Block>, x: int, y: int, z: int): int
    requires |m| == Volume(d)
    decreases d.y - y
  {
    if y >= d.y || Open(d, m, x, y, z) then y else Risen(d, m, x, y + 1, z)
  }

  /** The ground below `y`. */
  function Fallen(d: Dims, m: seq<Block>, x: int, y: int, z: int): int
    requires |m| == Volume(d)
    decreases y
  {
    if y <= 0 || Get(d, m, BEDROCK, x, y - 1, z) != AIR then y else Fallen(d, m, x, y - 1, z)
  }

  /** Out of the ground, or else down to it. */
  function Rest(d: Dims, m: seq<Block>, x: int, y: int, z: int): int
    requires |m| == Volume(d)
  {
    if Open(d, m, x, y, z) then Fallen(d, m, x, y, z) else Risen(d, m, x, y, z)
  }

  /** From inside something the walk comes out at the first open place above; otherwise it
      drops through air to the first ground. */
  lemma RestMeans(d: Dims, m: seq<Block>, x: int, y: int, z: int)
    requires |m| == Volume(d)
    ensures var r := Rest(d, m, x, y, z);
            if Open(d, m, x, y, z) then
              r <= y && (forall k :: r <= k <= y + 1 ==> Get(d, m, AIR, x, k, z) == AIR)
              && (y >= 0 ==> r >= 0 && Get(d, m, BEDROCK, x, r - 1, z) != AIR)
            else
              y < r <= d.y && Open(d, m, x, r, z) && forall k :: y <= k < r ==> !Open(d, m, x, k, z)
  {
    hide Pack, Volume;
    RisenMeans(d, m, x, y, z);
    FallenMeans(d, m, x, y, z);
  }

  lemma {:induction false} RisenMeans(d: Dims, m: seq<Block>, x: int, y: int, z: int)
    requires |m| == Volume(d)
    ensures var r := Risen(d, m, x, y, z);
            y <= r && (y <= d.y ==> r <= d.y) && Open(d, m, x, r, z) && forall k :: y <= k < r ==> !Open(d, m, x, k, z)
    decreases d.y - y
  {
    hide Pack, Volume;
    if y < d.y && !Open(d, m, x, y, z) { RisenMeans(d, m, x, y + 1, z); }
  }

  lemma {:induction false} FallenMeans(d: Dims, m: seq<Block>, x: int, y: int, z: int)
    requires |m| == Volume(d)
    ensures var r := Fallen(d, m, x, y, z);
            && r <= y && (forall k :: r <= k < y ==> Get(d, m, AIR, x, k, z) == AIR)
            && (y >= 0 ==> r >= 0 && Get(d, m, BEDROCK, x, r - 1, z) != AIR)
    decreases y
  {
    hide Pack, Volume;
    if y > 0 && Get(d, m, BEDROCK, x, y - 1, z) == AIR { FallenMeans(d, m, x, y - 1, z); }
  }

  /** The last move in this column, and what it says about the cells it has passed. */
  datatype Walk = Standing | Upwards | Downwards

  ghost predicate Steady(d: Dims, m: seq<Block>, walk: Walk, x: int, y: int, z: int)
    requires |m| == Volume(d)
  {
    match walk
    case Standing => true
    case Upwards => Get(d, m, AIR, x, y - 1, z) != AIR || Get(d, m, AIR, x, y, z) != AIR
    case Downwards => Get(d, m, AIR, x, y, z) == AIR && Get(d, m, AIR, x, y + 1, z) == AIR
  }

  lemma UpStep(d: Dims, m: seq<Block>, walk: Walk, x: int, y: int, z: int)
    requires |m| == Volume(d) && Steady(d, m, walk, x, y, z) && y >= 0
    requires !Open(d, m, x, y, z)
    ensures walk != Downwards && Steady(d, m, Upwards, x, y + 1, z) && y < d.y
    ensures Rest(d, m, x, y + 1, z) == Rest(d, m, x, y, z)
  {
    hide Pack, Volume;
  }

  lemma DownStep(d: Dims, m: seq<Block>, walk: Walk, x: int, y: int, z: int)
    requires |m| == Volume(d) && Steady(d, m, walk, x, y, z) && y >= 0
    requires Open(d, m, x, y, z) && Get(d, m, BEDROCK, x, y - 1, z) == AIR
    ensures walk != Upwards && Steady(d, m, Downwards, x, y - 1, z) && y > 0
    ensures Rest(d, m, x, y - 1, z) == Rest(d, m, x, y, z)
  {
    hide Pack, Volume;
  }

  lemma AtRest(d: Dims, m: seq<Block>, x: int, y: int, z: int)
    requires |m| == Volume(d) && Open(d, m, x, y, z) && Get(d, m, BEDROCK, x, y - 1, z) != AIR
    ensures Rest(d, m, x, y, z) == y
  {
  }

  /** How far a walk can still go.  It never turns round, so it comes to an end. */
  ghost function Distance(d: Dims, walk: Walk, y: int): int {
    match walk case Standing => d.y + 1 case Upwards => d.y - y case Downwards => y
  }

  lemma LandingIs(d: Dims, m: seq<Block>, x: int, y: int, z: int)
    requires |m| == Volume(d)
    ensures IsLanding(d, m, x, y, z) <==>
              && (forall dx, dy, dz {:trigger IsRoom(d, m, x, y, z, dx, dy, dz)} ::
                    Near(dx, dy, dz) ==> IsRoom(d, m, x, y, z, dx, dy, dz))
              && !IsLiquid(Get(d, m, BEDROCK, x, y - 1, z))
  {
    if forall dx, dy, dz {:trigger IsRoom(d, m, x, y, z, dx, dy, dz)} ::
         Near(dx, dy, dz) ==> IsRoom(d, m, x, y, z, dx, dy, dz)
    {
      assert IsRoom(d, m, x, y, z, 0, -1, 0);
    }
  }

  lemma AnywhereSteady(d: Dims, m: seq<Block>, x: int, y: int, z: int)
    requires |m| == Volume(d)
    ensures Steady(d, m, Standing, x, y, z)
  {
  }
}
