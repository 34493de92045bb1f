/** `shift_spawn_to_land`: looking for a dry, flat place near the spawn point of a map. */
module SpawnSearch {
  import opened World
  import opened Landing

  const NIL: Block := 0xFFFF

  datatype Point = Point(x: int, y: int, z: int)

  function StepX(dir: int, offset: int): int {
    if dir == 0 || dir == 4 || dir == 7 then offset else if dir == 1 || dir == 5 || dir == 6 then -offset else 0
  }

  function StepZ(dir: int, offset: int): int {
    if dir == 2 || dir == 4 || dir == 5 then offset else if dir == 3 || dir == 6 || dir == 7 then -offset else 0
  }

  function Larger(a: int, b: int): int { if a > b then a else b }

  /** C division. */
  function Quotient(a: int, b: int): int
    requires b > 0
  {
    if a >= 0 then a / b else -(-a / b)
  }

  // ---- Where the search goes ------------------------------------------------------------

  /** The cell that the spawn point is in, brought back over the map. */
  function Home(d: Dims, spawn: Point): (p: Point)
    ensures 0 <= p.x < Larger(d.x, 1) && 0 <= p.z < Larger(d.z, 1) && 0 <= p.y <= d.y
  {
    var x, y, z := Quotient(spawn.x - 16, 32), Quotient(spawn.y - 16, 32), Quotient(spawn.z - 16, 32);
    var off := x < 0 || z < 0 || x >= d.x || z >= d.z;
    Point(if off then d.x / 2 else x, if y < 0 || y >= d.y then d.y else y, if off then d.z / 2 else z)
  }

  /** Eight spots on every ring, in the order in which they are tried. */
  function SpotX(home: Point, k: nat): int { home.x + StepX(k % 8, k / 8) }

  function SpotZ(home: Point, k: nat): int { home.z + StepZ(k % 8, k / 8) }

  function Spot(home: Point, k: nat): (int, int) { (SpotX(home, k), SpotZ(home, k)) }

  /** On every ring: east, west, south and north, and then the four corners. */
  lemma RingInOrder(home: Point, r: nat)
    ensures Spot(home, 8 * r) == (home.x + r, home.z) && Spot(home, 8 * r + 1) == (home.x - r, home.z)
    ensures Spot(home, 8 * r + 2) == (home.x, home.z + r) && Spot(home, 8 * r + 3) == (home.x, home.z - r)
    ensures Spot(home, 8 * r + 4) == (home.x + r, home.z + r) && Spot(home, 8 * r + 5) == (home.x - r, home.z + r)
    ensures Spot(home, 8 * r + 6) == (home.x - r, home.z - r) && Spot(home, 8 * r + 7) == (home.x + r, home.z - r)
  {
  }

  /** The search begins in the cell that the spawn point is in (or in the first, if it is less than
      a cell before it); if that is not over the map, in
      the middle of the map; and if it is below or above it, at the top. */
  lemma HomeMeans(d: Dims, spawn: Point, x: nat, y: nat, z: nat)
    requires 32 * x <= spawn.x - 16 < 32 * x + 32 || (x == 0 && -32 < spawn.x - 16 < 0)
    requires 32 * z <= spawn.z - 16 < 32 * z + 32 || (z == 0 && -32 < spawn.z - 16 < 0)
    ensures x < d.x && z < d.z ==> Home(d, spawn).x == x && Home(d, spawn).z == z
    ensures x >= d.x || z >= d.z ==> Home(d, spawn).x == d.x / 2 && Home(d, spawn).z == d.z / 2
    ensures 32 * y <= spawn.y - 16 < 32 * y + 32 || (y == 0 && -32 < spawn.y - 16 < 0) ==>
              Home(d, spawn).y == if y < d.y then y else d.y
    ensures spawn.y <= -16 ==> Home(d, spawn).y == d.y
  {
  }

  lemma OffTheEdge(d: Dims, spawn: Point)
    requires spawn.x <= -16 || spawn.z <= -16
    ensures Home(d, spawn).x == d.x / 2 && Home(d, spawn).z == d.z / 2
  {
  }

  /** A spawn point that has been found is left where it is by another search. */
  lemma FoundForGood(d: Dims, m: seq<Block>, home: Point, k: nat)
    requires |m| == Volume(d) && Suits(d, m, home, k)
    ensures var place := PlaceAt(d, m, home, k);
            IsFirst(d, m, Home(d, place), 0) && PlaceAt(d, m, Home(d, place), 0) == place
  {
    hide StepX, StepZ, Home, IsRoom;
    var (x, y, z) := (SpotX(home, k), HeightAt(d, m, home, k), SpotZ(home, k));
    var place := PlaceAt(d, m, home, k);
    LandingMeans(d, m, x, y, z);
    assert Inside(d, x, y - 1, z);
    HomeMeans(d, place, x, y, z);
    RingInOrder(Home(d, place), 0);
    OpenLanding(d, m, x, y, z);
    AtRest(d, m, x, y, z);
  }

  lemma OpenLanding(d: Dims, m: seq<Block>, x: int, y: int, z: int)
    requires |m| == Volume(d) && IsLanding(d, m, x, y, z)
    ensures Open(d, m, x, y, z) && Get(d, m, BEDROCK, x, y - 1, z) != AIR
  {
    LandingMeans(d, m, x, y, z);
  }

  /** The spot has no column: it is beyond the edge of the map. */
  predicate Off(d: Dims, m: seq<Block>, home: Point, k: nat)
    requires |m| == Volume(d)
  {
    Get(d, m, NIL, SpotX(home, k), 0, SpotZ(home, k)) == NIL
  }

  ghost predicate RingOff(d: Dims, m: seq<Block>, home: Point, ring: nat)
    requires |m| == Volume(d)
  {
    forall k: nat :: ring * 8 <= k < ring * 8 + 8 ==> Off(d, m, home, k)
  }

  /** The height at which spot `k` is looked at: where the column before it was left,
      brought to rest in this one. */
  function HeightAt(d: Dims, m: seq<Block>, home: Point, k: nat): int
    requires |m| == Volume(d)
  {
    var before := if k == 0 then home.y else HeightAt(d, m, home, k - 1);
    if Off(d, m, home, k) then before else Rest(d, m, SpotX(home, k), before, SpotZ(home, k))
  }

  ghost predicate Suits(d: Dims, m: seq<Block>, home: Point, k: nat)
    requires |m| == Volume(d)
  {
    !Off(d, m, home, k) && IsLanding(d, m, SpotX(home, k), HeightAt(d, m, home, k), SpotZ(home, k))
  }

  /** The middle of the cell in which the player will stand. */
  function PlaceAt(d: Dims, m: seq<Block>, home: Point, k: nat): (p: Point)
    requires |m| == Volume(d)
    ensures p.x % 32 == 16 && p.y % 32 == 16 && p.z % 32 == 16
  {
    Point(SpotX(home, k) * 32 + 16, HeightAt(d, m, home, k) * 32 + 16, SpotZ(home, k) * 32 + 16)
  }

  ghost predicate NoneBefore(d: Dims, m: seq<Block>, home: Point, k: nat)
    requires |m| == Volume(d)
  {
    && (forall j: nat :: j < k ==> !Suits(d, m, home, j))
    && (forall ring: nat :: ring * 8 + 8 <= k ==> !RingOff(d, m, home, ring))
  }

  /** The spot that the search finds. */
  ghost predicate IsFirst(d: Dims, m: seq<Block>, home: Point, k: nat)
    requires |m| == Volume(d)
  {
    NoneBefore(d, m, home, k) && Suits(d, m, home, k)
  }

  /** The ring at which the search ends without one. */
  ghost predicate GivesUpAt(d: Dims, m: seq<Block>, home: Point, ring: nat)
    requires |m| == Volume(d)
  {
    RingOff(d, m, home, ring) && NoneBefore(d, m, home, ring * 8)
  }

  /** The first ring that is off the map altogether is the end: no later spot is on it. */
  lemma NothingFurtherOut(d: Dims, m: seq<Block>, home: Point, ring: nat, k: nat)
    requires |m| == Volume(d) && NIL !in m
    requires 0 <= home.x < Larger(d.x, 1) && 0 <= home.z < Larger(d.z, 1)
    requires RingOff(d, m, home, ring) && k >= ring * 8
    ensures Off(d, m, home, k) && !Suits(d, m, home, k)
  {
    var j := ring * 8 + k % 8;
    assert j % 8 == k % 8 && j / 8 == ring <= k / 8;
    assert Off(d, m, home, j);
    OffMeans(d, m, home, j);
    OffMeans(d, m, home, k);
  }

  lemma OffMeans(d: Dims, m: seq<Block>, home: Point, k: nat)
    requires |m| == Volume(d) && NIL !in m
    ensures Off(d, m, home, k) <==> !Inside(d, SpotX(home, k), 0, SpotZ(home, k))
  {
    hide Pack, Volume, StepX, StepZ;
  }

  /** With every stored block number below the one that stands for "no block", the spawn
      point is left alone only if no spot of any ring would do. */
  lemma SearchIsComplete(d: Dims, m: seq<Block>, spawn: Point, ring: nat)
    requires |m| == Volume(d) && NIL !in m
    requires GivesUpAt(d, m, Home(d, spawn), ring)
    ensures forall k: nat :: !Suits(d, m, Home(d, spawn), k)
  {
    hide Suits, RingOff, Volume;
    var home := Home(d, spawn);
    forall k: nat ensures !Suits(d, m, home, k) {
      if k >= ring * 8 { NothingFurtherOut(d, m, home, ring, k); }
    }
  }

  /** No more than this is ever searched: beyond it every direction has left the map. */
  function Reach(d: Dims): nat { Larger(d.x, d.z) }

  lemma BeyondReach(d: Dims, m: seq<Block>, home: Point, k: nat)
    requires |m| == Volume(d) && k / 8 == Reach(d)
    requires 0 <= home.x < Larger(d.x, 1) && 0 <= home.z < Larger(d.z, 1)
    ensures Off(d, m, home, k)
  {
  }

  /** How many of the first `n` spots of a ring are off the map. */
  ghost function OffCount(d: Dims, m: seq<Block>, home: Point, ring: nat, n: nat): (count: nat)
    requires |m| == Volume(d)
    ensures count <= n
  {
    if n == 0 then 0
    else OffCount(d, m, home, ring, n - 1) + if Off(d, m, home, ring * 8 + n - 1) then 1 else 0
  }

  lemma {:induction false} AllCounted(d: Dims, m: seq<Block>, home: Point, ring: nat, n: nat)
    requires |m| == Volume(d)
    ensures OffCount(d, m, home, ring, n) == n <==>
              forall k: nat :: ring * 8 <= k < ring * 8 + n ==> Off(d, m, home, k)
  {
    hide Off, Volume;
    if n > 0 { AllCounted(d, m, home, ring, n - 1); }
  }

  /** The height the walk in the column of spot `k` will come to, seen from where it is. */
  ghost predicate OnTheWay(d: Dims, m: seq<Block>, home: Point, k: nat, y: int)
    requires |m| == Volume(d)
  {
    HeightAt(d, m, home, k) == if Off(d, m, home, k) then y else Rest(d, m, SpotX(home, k), y, SpotZ(home, k))
  }

  lemma NextColumn(d: Dims, m: seq<Block>, home: Point, k: nat, y: int)
    requires |m| == Volume(d) && HeightAt(d, m, home, k) == y
    ensures OnTheWay(d, m, home, k + 1, y)
  {
    hide Off, Rest;
  }

  lemma NextSpot(d: Dims, m: seq<Block>, home: Point, k: nat)
    requires |m| == Volume(d) && NoneBefore(d, m, home, k) && !Suits(d, m, home, k)
    requires (k + 1) % 8 == 0 ==> !RingOff(d, m, home, k / 8)
    ensures NoneBefore(d, m, home, k + 1)
  {
    hide Suits, RingOff;
    forall ring: nat | ring * 8 + 8 <= k + 1 ensures !RingOff(d, m, home, ring) {
      if ring * 8 + 8 == k + 1 { assert ring == k / 8; }
    }
  }

  /** The first lines of the loop: where to look next. */
  method FromHome(dir: nat, offset: int) returns (dx: int, dz: int)
    requires dir < 8
    ensures dx == StepX(dir, offset) && dz == StepZ(dir, offset)
    ensures dx == [offset, -offset, 0, 0, offset, -offset, -offset, offset][dir]
    ensures dz == [0, 0, offset, -offset, offset, offset, -offset, -offset][dir]
  {
    dx, dz := 0, 0;
    if dir == 0 { dx := offset; }
    if dir == 1 { dx := -offset; }
    if dir == 2 { dz := offset; }
    if dir == 3 { dz := -offset; }
    if dir == 4 { dx, dz := offset, offset; }
    if dir == 5 { dx, dz := -offset, offset; }
    if dir == 6 { dx, dz := -offset, -offset; }
    if dir == 7 { dx, dz := offset, -offset; }
  }

  /** Nothing on an inner ring would do, and the column `r` cells to the east has a landing. */
  ghost predicate LandsToTheEast(d: Dims, m: seq<Block>, home: Point, r: nat)
    requires |m| == Volume(d)
  {
    && NoneBefore(d, m, home, r * 8)
    && Get(d, m, NIL, home.x + r, 0, home.z) != NIL
    && IsLanding(d, m, home.x + r, HeightAt(d, m, home, r * 8), home.z)
  }

  lemma EastSuits(d: Dims, m: seq<Block>, home: Point, r: nat)
    requires |m| == Volume(d) && LandsToTheEast(d, m, home, r)
    ensures !Off(d, m, home, r * 8) && Suits(d, m, home, r * 8) && Spot(home, r * 8) == (home.x + r, home.z)
  {
    hide StepX, StepZ, IsLanding, Get;
    RingInOrder(home, r);
  }

  lemma EastIsFirst(d: Dims, m: seq<Block>, home: Point, r: nat, k: nat)
    requires |m| == Volume(d) && LandsToTheEast(d, m, home, r) && IsFirst(d, m, home, k)
    ensures k == r * 8 && SpotX(home, k) == home.x + r && SpotZ(home, k) == home.z
  {
    hide Suits, RingOff, SpotX, SpotZ;
    EastSuits(d, m, home, r);
  }

  lemma EastNotGivenUp(d: Dims, m: seq<Block>, home: Point, r: nat, ring: nat)
    requires |m| == Volume(d) && LandsToTheEast(d, m, home, r)
    ensures !GivesUpAt(d, m, home, ring)
  {
    hide Suits, Off, SpotX, SpotZ, LandsToTheEast;
    EastSuits(d, m, home, r);
    EastNothingBefore(d, m, home, r);
    if r < ring {
      assert !NoneBefore(d, m, home, ring * 8);
    } else {
      assert !RingOff(d, m, home, ring);
    }
  }

  lemma EastWhenFound(d: Dims, m: seq<Block>, home: Point, k: nat)
    requires |m| == Volume(d) && IsFirst(d, m, home, k)
    ensures forall r: nat :: LandsToTheEast(d, m, home, r) ==>
              PlaceAt(d, m, home, k)
              == Point((home.x + r) * 32 + 16, HeightAt(d, m, home, r * 8) * 32 + 16, home.z * 32 + 16)
  {
    hide LandsToTheEast, IsFirst, SpotX, SpotZ, HeightAt;
    forall r: nat | LandsToTheEast(d, m, home, r) { EastIsFirst(d, m, home, r, k); }
  }

  lemma EastWhenNot(d: Dims, m: seq<Block>, home: Point, ring: nat)
    requires |m| == Volume(d) && GivesUpAt(d, m, home, ring)
    ensures forall r: nat :: !LandsToTheEast(d, m, home, r)
  {
    hide LandsToTheEast, GivesUpAt;
    forall r: nat ensures !LandsToTheEast(d, m, home, r) {
      if LandsToTheEast(d, m, home, r) { EastNotGivenUp(d, m, home, r, ring); }
    }
  }

  lemma EastNothingBefore(d: Dims, m: seq<Block>, home: Point, r: nat)
    requires |m| == Volume(d) && LandsToTheEast(d, m, home, r)
    ensures NoneBefore(d, m, home, r * 8)
  {
  }

  /** The search ends on every map, though it walks up and down and its rings have no limit of
      their own. */
  method FindLand(d: Dims, m: seq<Block>, spawn: Point) returns (moved: bool, place: Point)
    requires |m| == Volume(d)
    ensures moved ==> exists k: nat :: IsFirst(d, m, Home(d, spawn), k) && place == PlaceAt(d, m, Home(d, spawn), k)
    ensures !moved ==> place == spawn && exists ring: nat :: GivesUpAt(d, m, Home(d, spawn), ring)
  {
    hide IsLanding, Get, Steady, Volume, StepX, StepZ, IsRoom, Quotient, Rest, HeightAt, RingOff, NoneBefore, Off,
         OnTheWay, SpotX, SpotZ, OffCount, GivesUpAt, Larger;
    var x, y, z := Quotient(spawn.x - 16, 32), Quotient(spawn.y - 16, 32), Quotient(spawn.z - 16, 32);
    if x < 0 || z < 0 || x >= d.x || z >= d.z { x, z := d.x / 2, d.z / 2; }
    if y < 0 || y >= d.y { y := d.y; }
    ghost var home := Point(x, y, z);
    AtHome(d, m, spawn);
    var offset, dir, fc := 0, 0, 0;
    ghost var walk := Standing;
    while true
      invariant home == Home(d, spawn) && home.x == x && home.z == z && 0 <= y <= d.y
      invariant 0 <= offset <= Reach(d) && 0 <= dir < 8
      invariant dir > 0 ==> fc == OffCount(d, m, home, offset, dir)
      invariant NoneBefore(d, m, home, offset * 8 + dir)
      invariant Steady(d, m, walk, x + StepX(dir, offset), y, z + StepZ(dir, offset))
      invariant OnTheWay(d, m, home, offset * 8 + dir, y)
      decreases Reach(d) - offset, 8 - dir, Distance(d, walk, y)
    {
      var dx, dz := FromHome(dir, offset);
      ghost var k := offset * 8 + dir;
      SpotIs(d, m, home, offset, dir);
      CountOne(d, m, home, offset, dir);
      RingIsOff(d, m, home, offset, dir);
      if dir == 0 { fc := 0; }
      var nextspot := false;
      if offset == Reach(d) { RingBeyond(d, m, home, dir); }
      if Get(d, m, NIL, x + dx, 0, z + dz) == NIL {
        nextspot := true;
        fc := fc + 1;
        if fc == 8 { break; }
      }
      var b1 := Get(d, m, AIR, x + dx, y, z + dz);
      var b2 := Get(d, m, AIR, x + dx, y + 1, z + dz);
      var b3 := Get(d, m, BEDROCK, x + dx, y - 1, z + dz);
      if !nextspot {
        if b1 != AIR || b2 != AIR {
          UpStep(d, m, walk, x + dx, y, z + dz);
          StillOnTheWay(d, m, home, k, y, y + 1);
          y, walk := y + 1, Upwards;
          continue;
        }
        if b3 == AIR {
          DownStep(d, m, walk, x + dx, y, z + dz);
          StillOnTheWay(d, m, home, k, y, y - 1);
          y, walk := y - 1, Downwards;
          continue;
        }
        AtRest(d, m, x + dx, y, z + dz);
        if IsLiquid(b3) { nextspot := true; }
      }
      Arrived(d, m, home, k, y);
      if !nextspot {
        var flat := IsFlat(d, m, x + dx, y, z + dz);
        if !flat { nextspot := true; }
      }
      LandingIs(d, m, x + dx, y, z + dz);
      if !nextspot && b1 == AIR && b2 == AIR {
        assert IsFirst(d, m, home, k);
        return true, Point((x + dx) * 32 + 16, y * 32 + 16, (z + dz) * 32 + 16);
      }
      NextSpot(d, m, home, k);
      NextColumn(d, m, home, k, y);
      dir, walk := (dir + 1) % 8, Standing;
      if dir == 0 { offset := offset + 1; }
      AnywhereSteady(d, m, x + StepX(dir, offset), y, z + StepZ(dir, offset));
    }
    assert GivesUpAt(d, m, home, offset);
    return false, spawn;
  }

  /** The spawn point is moved to the first spot that suits, or left alone if a whole ring
      is off the map before there is one. */
  method ShiftSpawnToLand(d: Dims, m: seq<Block>, spawn: Point) returns (moved: bool, place: Point)
    requires |m| == Volume(d)
    ensures moved ==> exists k: nat :: IsFirst(d, m, Home(d, spawn), k) && place == PlaceAt(d, m, Home(d, spawn), k)
    ensures !moved ==> place == spawn && exists ring: nat :: GivesUpAt(d, m, Home(d, spawn), ring)
    // the first spot of a ring is the one to the east
    ensures forall r: nat :: LandsToTheEast(d, m, Home(d, spawn), r) ==>
              var home := Home(d, spawn);
              moved && place == Point((home.x + r) * 32 + 16, HeightAt(d, m, home, r * 8) * 32 + 16, home.z * 32 + 16)
  {
    hide IsFirst, GivesUpAt, LandsToTheEast, PlaceAt;
    moved, place := FindLand(d, m, spawn);
    var home := Home(d, spawn);
    if moved {
      ghost var k: nat :| IsFirst(d, m, home, k) && place == PlaceAt(d, m, home, k);
      EastWhenFound(d, m, home, k);
    } else {
      ghost var ring: nat :| GivesUpAt(d, m, home, ring);
      EastWhenNot(d, m, home, ring);
    }
  }

  lemma AtHome(d: Dims, m: seq<Block>, spawn: Point)
    requires |m| == Volume(d)
    ensures var home := Home(d, spawn);
            && NoneBefore(d, m, home, 0) && OnTheWay(d, m, home, 0, home.y)
            && Steady(d, m, Standing, home.x + StepX(0, 0), home.y, home.z + StepZ(0, 0))
  {
    hide Suits, RingOff, Off, Rest;
  }

  lemma SpotIs(d: Dims, m: seq<Block>, home: Point, offset: nat, dir: nat)
    requires |m| == Volume(d) && dir < 8
    ensures var k := offset * 8 + dir;
            && k / 8 == offset && k % 8 == dir
            && SpotX(home, k) == home.x + StepX(dir, offset) && SpotZ(home, k) == home.z + StepZ(dir, offset)
            && (Off(d, m, home, k) <==> Get(d, m, NIL, SpotX(home, k), 0, SpotZ(home, k)) == NIL)
  {
    hide StepX, StepZ, Get, Volume;
  }

  lemma CountOne(d: Dims, m: seq<Block>, home: Point, ring: nat, dir: nat)
    requires |m| == Volume(d)
    ensures OffCount(d, m, home, ring, 0) == 0
    ensures OffCount(d, m, home, ring, dir + 1)
            == OffCount(d, m, home, ring, dir) + if Off(d, m, home, ring * 8 + dir) then 1 else 0
  {
    hide Off;
  }

  lemma RingBeyond(d: Dims, m: seq<Block>, home: Point, dir: nat)
    requires |m| == Volume(d) && dir < 8
    requires 0 <= home.x < Larger(d.x, 1) && 0 <= home.z < Larger(d.z, 1)
    ensures Off(d, m, home, Reach(d) * 8 + dir) && OffCount(d, m, home, Reach(d), dir + 1) == dir + 1
  {
    hide Off, Volume;
    forall k: nat | Reach(d) * 8 <= k < Reach(d) * 8 + 8 ensures Off(d, m, home, k) {
      BeyondReach(d, m, home, k);
    }
    AllCounted(d, m, home, Reach(d), dir + 1);
  }

  lemma RingIsOff(d: Dims, m: seq<Block>, home: Point, ring: nat, dir: nat)
    requires |m| == Volume(d) && dir < 8 && NoneBefore(d, m, home, ring * 8 + dir)
    ensures OffCount(d, m, home, ring, dir + 1) == 8 ==> GivesUpAt(d, m, home, ring)
    ensures OffCount(d, m, home, ring, dir + 1) != 8 && dir == 7 ==> !RingOff(d, m, home, ring)
  {
    hide Off, Suits, OffCount;
    AllCounted(d, m, home, ring, dir + 1);
  }

  lemma StillOnTheWay(d: Dims, m: seq<Block>, home: Point, k: nat, y: int, y': int)
    requires |m| == Volume(d) && OnTheWay(d, m, home, k, y) && !Off(d, m, home, k)
    requires Rest(d, m, SpotX(home, k), y', SpotZ(home, k)) == Rest(d, m, SpotX(home, k), y, SpotZ(home, k))
    ensures OnTheWay(d, m, home, k, y')
  {
  }

  lemma Arrived(d: Dims, m: seq<Block>, home: Point, k: nat, y: int)
    requires |m| == Volume(d) && OnTheWay(d, m, home, k, y)
    requires Off(d, m, home, k) || Rest(d, m, SpotX(home, k), y, SpotZ(home, k)) == y
    ensures HeightAt(d, m, home, k) == y
  {
  }
}
