/** The commands that change blocks: a player's single edit, and the bulk edits. */
module Edits {
  import opened Ring
  import opened World
  import opened FallingSand
  import opened Level

  // ---- A player's edit --------------------------------------------------------------

  ghost predicate Known(d: Dims, m: seq<Block>)
    requires |m| == Volume(d)
  {
    forall x, y, z :: Inside(d, x, y, z) ==> m[Pack(d, x, y, z)] < BLOCKMAX
  }

  /** There is a block `b` among the (up to 26) neighbours of a cell. */
  ghost predicate NextTo(d: Dims, m: seq<Block>, x: int, y: int, z: int, b: Block)
    requires |m| == Volume(d)
  {
    exists x', y', z' :: Inside(d, x', y', z') && Near(x, y, z, x', y', z') && m[Pack(d, x', y', z')] == b
  }

  predicate Near(x: int, y: int, z: int, x': int, y': int, z': int) {
    && -1 <= x' - x <= 1 && -1 <= y' - y <= 1 && -1 <= z' - z <= 1
    && !(x' == x && y' == y && z' == z)
  }

  /** Dirt becomes grass if there is grass of that kind nearby. */
  ghost function Grown(d: Dims, defs: seq<BlockDef>, m: seq<Block>, x: int, y: int, z: int, b: Block): Block
    requires |m| == Volume(d) && DefsOk(defs) && b < BLOCKMAX
  {
    if defs[b].grassBlock != 0 && NextTo(d, m, x, y, z, defs[b].grassBlock) then defs[b].grassBlock else b
  }

  /** Every neighbour before offset (dx, dy, dz), in the order of the search, is no `b`. */
  ghost predicate NoneBefore(d: Dims, m: seq<Block>, x: int, y: int, z: int, b: Block, dx: int, dy: int, dz: int)
    requires |m| == Volume(d)
  {
    forall x', y', z' :: Inside(d, x', y', z') && Near(x, y, z, x', y', z')
        && Earlier(x' - x, y' - y, z' - z, dx, dy, dz)
      ==> m[Pack(d, x', y', z')] != b
  }

  predicate Earlier(a: int, b: int, c: int, dx: int, dy: int, dz: int) {
    a < dx || (a == dx && (b < dy || (b == dy && c < dz)))
  }

  /** `grow_dirt_block` */
  method GrowDirtBlock(l: Level, x: int, y: int, z: int, b: Block) returns (r: Block)
    requires l.Valid() && b < BLOCKMAX
    ensures r == Grown(l.dims, l.defs, l.blocks[..], x, y, z, b)
  {
    var d := l.dims;
    ghost var m := l.blocks[..];
    var grass := l.defs[b].grassBlock;
    var found := false;
    if grass != 0 {
      var dx := -1;
      while dx < 2 && !found
        invariant -1 <= dx <= 2
        invariant if found then NextTo(d, m, x, y, z, grass) else NoneBefore(d, m, x, y, z, grass, dx, -1, -1)
      {
        if 0 <= x + dx < d.x {
          var dy := -1;
          while dy < 2 && !found
            invariant -1 <= dy <= 2
            invariant if found then NextTo(d, m, x, y, z, grass) else NoneBefore(d, m, x, y, z, grass, dx, dy, -1)
          {
            if 0 <= y + dy < d.y {
              var dz := -1;
              while dz < 2 && !found
                invariant -1 <= dz <= 2
                invariant if found then NextTo(d, m, x, y, z, grass) else NoneBefore(d, m, x, y, z, grass, dx, dy, dz)
              {
                if 0 <= z + dz < d.z && !(dx == 0 && dy == 0 && dz == 0) {
                  if l.At(x + dx, y + dy, z + dz) == grass {
                    found := true;
                    assert Near(x, y, z, x + dx, y + dy, z + dz);
                  }
                }
                dz := dz + 1;
              }
            }
            dy := dy + 1;
          }
        }
        dx := dx + 1;
      }
    }
    r := if found then grass else b;
  }

  const NONE: int := -1

  /** What an edit puts into the cell itself and, unless NONE, into the one below. */
  datatype Outcome = Outcome(here: Block, below: int)

  function Light(defs: seq<BlockDef>, b: Block): bool
    requires DefsOk(defs) && b < BLOCKMAX
  {
    defs[b].transmitsLight
  }

  /** Two equal blocks of a stacking kind become one taller block in the lower cell. */
  function Stacked(defs: seq<BlockDef>, here: Block, below: Block, b: Block, y: int): Outcome
    requires DefsOk(defs) && b < BLOCKMAX
  {
    if y > 0 && defs[b].stackBlock != 0 && here == AIR && b == below
    then Outcome(AIR, defs[b].stackBlock) else Outcome(b, NONE)
  }

  /** Grass with something opaque on it becomes dirt; lit dirt may become grass; but an
      edit never turns straight back into what it replaced. */
  ghost function Corrected(d: Dims, defs: seq<BlockDef>, m: seq<Block>, x: int, y: int, z: int,
                           here: Block, above: Block, b: Block): Block
    requires |m| == Volume(d) && DefsOk(defs) && b < BLOCKMAX && above < BLOCKMAX
  {
    var dirt, grass := defs[b].dirtBlock, defs[b].grassBlock;
    if !Light(defs, above) && dirt != 0 && dirt != here then dirt
    else if Light(defs, above) && grass != 0 && grass != here then Grown(d, defs, m, x, y, z, b)
    else b
  }

  /** The block below follows the new light. */
  ghost function BelowAfter(d: Dims, defs: seq<BlockDef>, m: seq<Block>, x: int, y: int, z: int, o: Outcome): int
    requires |m| == Volume(d) && DefsOk(defs) && Known(d, m) && o.here < BLOCKMAX
    requires y > 0 && Inside(d, x, y, z)
  {
    var below := m[Pack(d, x, y - 1, z)];
    if Light(defs, o.here) then
      var grown := Grown(d, defs, m, x, y - 1, z, below);
      if defs[below].grassBlock != 0 && grown != below then grown else o.below
    else if defs[below].dirtBlock != 0 then defs[below].dirtBlock
    else o.below
  }

  ghost function Above(d: Dims, m: seq<Block>, x: int, y: int, z: int): Block
    requires |m| == Volume(d) && Inside(d, x, y, z)
  {
    if y < d.y - 1 then m[Pack(d, x, y + 1, z)] else AIR
  }

  ghost function Decide(d: Dims, defs: seq<BlockDef>, m: seq<Block>, x: int, y: int, z: int, b: Block): Outcome
    requires |m| == Volume(d) && DefsOk(defs) && Known(d, m) && Inside(d, x, y, z) && b < BLOCKMAX
  {
    var here := m[Pack(d, x, y, z)];
    var o := Stacked(defs, here, if y > 0 then m[Pack(d, x, y - 1, z)] else AIR, b, y);
    var o' := o.(here := Corrected(d, defs, m, x, y, z, here, Above(d, m, x, y, z), o.here));
    if y > 0 then o'.(below := BelowAfter(d, defs, m, x, y, z, o')) else o'.(below := NONE)
  }

  /** The map once both cells have been written. */
  ghost function Placed(d: Dims, m: seq<Block>, x: int, y: int, z: int, o: Outcome): (r: seq<Block>)
    requires |m| == Volume(d) && Inside(d, x, y, z) && NONE <= o.below < BLOCKMAX && (y == 0 ==> o.below == NONE)
    ensures |r| == |m|
  {
    var m1 := m[Pack(d, x, y, z) := o.here];
    if o.below == NONE then m1 else m1[Pack(d, x, y - 1, z) := o.below]
  }

  /** Then sand falls: the placed block if there is air below it, and what is above. */
  ghost function Fallen(falls: Falls, col: seq<Block>, y: nat, here: Block, above: Block): (r: seq<Block>)
    requires y < |col| && here < BLOCKMAX && above < BLOCKMAX
    ensures |r| == |col|
  {
    var c1 := if y > 0 && falls[here] && col[y - 1] == AIR then Settle(falls, col, y) else col;
    if above != AIR && falls[above] && y + 1 < |col| then Settle(falls, c1, y + 1) else c1
  }

  /** The block asked for: air unless the mode says to place one. */
  function Wanted(mode: int, block: Block): (b: Block)
    ensures b < BLOCKMAX
  {
    Clamp(if mode != 0 then block else AIR)
  }

  lemma DecideInRange(d: Dims, defs: seq<BlockDef>, m: seq<Block>, x: int, y: int, z: int, b: Block)
    requires |m| == Volume(d) && DefsOk(defs) && Known(d, m) && Inside(d, x, y, z) && b < BLOCKMAX
    ensures var o := Decide(d, defs, m, x, y, z, b);
            o.here < BLOCKMAX && NONE <= o.below < BLOCKMAX && (y == 0 ==> o.below == NONE)
  {
  }

  lemma PlacedElsewhere(d: Dims, m: seq<Block>, x: int, y: int, z: int, o: Outcome)
    requires |m| == Volume(d) && Inside(d, x, y, z) && NONE <= o.below < BLOCKMAX && (y == 0 ==> o.below == NONE)
    ensures SameElsewhere(d, m, Placed(d, m, x, y, z, o), x, z)
  {
    ColumnPut(d, m, x, y, z, o.here);
    if o.below != NONE { ColumnPut(d, m[Pack(d, x, y, z) := o.here], x, y - 1, z, o.below); }
  }

  method FallFrom(l: Level, x: int, y: int, z: int, ghost m: seq<Block>, ghost h: Moment<Update>)
    requires l.Valid() && Inside(l.dims, x, y, z)
    requires |m| == Volume(l.dims) && Logged(l.dims, m, h, l.blocks[..], l.queue.Now())
    modifies l.blocks, l.queue
    ensures l.Valid()
    ensures Logged(l.dims, m, h, l.blocks[..], l.queue.Now())
    ensures SameElsewhere(l.dims, old(l.blocks[..]), l.blocks[..], x, z)
    ensures Col(l.dims, l.blocks[..], x, z) == Settle(l.falls, Col(l.dims, old(l.blocks[..]), x, z), y)
  {
    ghost var _ := l.CheckForSand(x, y, z);
    LoggedTransitive(l.dims, m, h, old(l.blocks[..]), old(l.queue.Now()), l.blocks[..], l.queue.Now());
  }

  /** The end of `update_block`: sand and gravel. */
  method LetFall(l: Level, x: int, y: int, z: int, here: Block, above: Block,
                 ghost m: seq<Block>, ghost h: Moment<Update>)
    requires l.Valid() && Inside(l.dims, x, y, z) && here < BLOCKMAX && above < BLOCKMAX
    requires above != AIR ==> y + 1 < l.dims.y
    requires |m| == Volume(l.dims) && Logged(l.dims, m, h, l.blocks[..], l.queue.Now())
    modifies l.blocks, l.queue
    ensures l.Valid()
    ensures Logged(l.dims, m, h, l.blocks[..], l.queue.Now())
    ensures SameElsewhere(l.dims, old(l.blocks[..]), l.blocks[..], x, z)
    ensures Col(l.dims, l.blocks[..], x, z) == Fallen(l.falls, Col(l.dims, old(l.blocks[..]), x, z), y, here, above)
  {
    hide Inv, Logged, Settle;
    if y > 0 {
      if l.defs[here].fastFall && Clamp(l.At(x, y - 1, z)) == AIR { FallFrom(l, x, y, z, m, h); }
    }
    if above != AIR && l.defs[above].fastFall { FallFrom(l, x, y + 1, z, m, h); }
  }

  lemma SettleKeepsKnown(falls: Falls, col: seq<Block>, y: nat)
    requires y < |col| && forall i :: 0 <= i < |col| ==> col[i] < BLOCKMAX
    ensures forall i :: 0 <= i < |col| ==> Settle(falls, col, y)[i] < BLOCKMAX
  {
  }

  lemma PlacedKnown(d: Dims, m: seq<Block>, x: int, y: int, z: int, o: Outcome)
    requires |m| == Volume(d) && Known(d, m) && Inside(d, x, y, z) && o.here < BLOCKMAX
    requires NONE <= o.below < BLOCKMAX && (y == 0 ==> o.below == NONE)
    ensures Known(d, Placed(d, m, x, y, z, o))
  {
    forall x', y', z' | Inside(d, x', y', z') ensures Placed(d, m, x, y, z, o)[Pack(d, x', y', z')] < BLOCKMAX {
      assert m[Pack(d, x', y', z')] < BLOCKMAX;
    }
  }

  /** An edit stores no block number that has no definition. */
  lemma EditKeepsKnown(l: Level, m: seq<Block>, m': seq<Block>, x: int, y: int, z: int, mode: int, block: Block)
    requires |m| == |m'| == Volume(l.dims) && DefsOk(l.defs) && Known(l.dims, m) && Inside(l.dims, x, y, z)
    requires EditResult(l, m, m', x, y, z, mode, block)
    ensures Known(l.dims, m')
  {
    hide Settle, Decide, Wanted;
    var d, b := l.dims, Wanted(mode, block);
    if !(m[Pack(d, x, y, z)] == b && mode != 2) {
      DecideInRange(d, l.defs, m, x, y, z, b);
      var o := Decide(d, l.defs, m, x, y, z, b);
      PlacedKnown(d, m, x, y, z, o);
      var c := Col(d, Placed(d, m, x, y, z, o), x, z);
      SettleKeepsKnown(l.falls, c, y);
      if y + 1 < d.y {
        SettleKeepsKnown(l.falls, c, y + 1);
        SettleKeepsKnown(l.falls, Settle(l.falls, c, y), y + 1);
      }
      forall x', y', z' | Inside(d, x', y', z') ensures m'[Pack(d, x', y', z')] < BLOCKMAX {
        if x' == x && z' == z {
          assert m'[Pack(d, x', y', z')] == Col(d, m', x, z)[y'];
        }
      }
    }
  }

  /** Where nothing stacks, grows, withers or falls, an edit changes its one cell. */
  lemma PlainEdit(l: Level, m: seq<Block>, m': seq<Block>, x: int, y: int, z: int, mode: int, block: Block)
    requires |m| == |m'| == Volume(l.dims) && DefsOk(l.defs) && Known(l.dims, m) && Inside(l.dims, x, y, z)
    requires EditResult(l, m, m', x, y, z, mode, block)
    requires var def := l.defs[Wanted(mode, block)];
             def.stackBlock == 0 && def.dirtBlock == 0 && def.grassBlock == 0 && !l.falls[Wanted(mode, block)]
    requires y > 0 ==> var def := l.defs[m[Pack(l.dims, x, y - 1, z)]]; def.dirtBlock == 0 && def.grassBlock == 0
    requires !l.falls[Above(l.dims, m, x, y, z)]
    ensures forall x', y', z' :: Inside(l.dims, x', y', z') ==>
              m'[Pack(l.dims, x', y', z')] ==
                if x' == x && y' == y && z' == z then Wanted(mode, block) else m[Pack(l.dims, x', y', z')]
  {
    var d, b := l.dims, Wanted(mode, block);
    if !(m[Pack(d, x, y, z)] == b && mode != 2) {
      DecideInRange(d, l.defs, m, x, y, z, b);
      ColumnPut(d, m, x, y, z, b);
      forall x', y', z' | Inside(d, x', y', z')
        ensures m'[Pack(d, x', y', z')] ==
                  if x' == x && y' == y && z' == z then b else m[Pack(d, x', y', z')]
      {
        if x' == x && z' == z {
          assert m'[Pack(d, x', y', z')] == Col(d, m', x, z)[y'];
          assert m[Pack(d, x', y', z')] == Col(d, m, x, z)[y'];
        }
      }
    } else {
      forall x', y', z' | Inside(d, x', y', z') && Pack(d, x', y', z') == Pack(d, x, y, z)
        ensures x' == x && y' == y && z' == z
      {
        PackInjective(d, x', y', z', x, y, z);
      }
    }
  }

  /** What becomes of the block below. */
  method DecideBelow(l: Level, x: int, y: int, z: int, b: Block, stacked: int) returns (newBelow: int)
    requires l.Valid() && Known(l.dims, l.blocks[..]) && Inside(l.dims, x, y, z) && y > 0 && b < BLOCKMAX
    ensures newBelow == BelowAfter(l.dims, l.defs, l.blocks[..], x, y, z, Outcome(b, stacked))
  {
    newBelow := stacked;
    var transmitsLight := l.defs[b].transmitsLight;
    var below := Clamp(l.At(x, y - 1, z));
    if transmitsLight && l.defs[below].grassBlock != 0 {
      var t := GrowDirtBlock(l, x, y - 1, z, l.At(x, y - 1, z));
      if t != l.At(x, y - 1, z) { newBelow := t; }
    }
    if !transmitsLight && l.defs[below].dirtBlock != 0 { newBelow := l.defs[below].dirtBlock; }
  }

  /** The first half of `update_block`: what the edit amounts to. */
  method DecideEdit(l: Level, x: int, y: int, z: int, b0: Block) returns (b: Block, newBelow: int, above: Block)
    requires l.Valid() && Known(l.dims, l.blocks[..]) && Inside(l.dims, x, y, z) && b0 < BLOCKMAX
    ensures Outcome(b, newBelow) == Decide(l.dims, l.defs, l.blocks[..], x, y, z, b0)
    ensures above == Above(l.dims, l.blocks[..], x, y, z)
  {
    var d := l.dims;
    ghost var m := l.blocks[..];
    b := b0;
    var oldBlock := l.At(x, y, z);
    newBelow := NONE;
    if y > 0 && l.defs[b].stackBlock != 0 && oldBlock == AIR {
      if b == l.At(x, y - 1, z) {
        newBelow := l.defs[b].stackBlock;
        b := AIR;
      }
    }
    above := AIR;
    if y < d.y - 1 { above := Clamp(l.At(x, y + 1, z)); }
    assert Outcome(b, newBelow) == Stacked(l.defs, oldBlock, if y > 0 then m[Pack(d, x, y - 1, z)] else AIR, b0, y);

    if l.defs[b].dirtBlock != 0 || l.defs[b].grassBlock != 0 {
      var transmitsLight := l.defs[above].transmitsLight;
      if !transmitsLight && l.defs[b].dirtBlock != 0 && l.defs[b].dirtBlock != oldBlock {
        b := l.defs[b].dirtBlock;
      } else if transmitsLight && l.defs[b].grassBlock != 0 && l.defs[b].grassBlock != oldBlock {
        b := GrowDirtBlock(l, x, y, z, b);
      }
    }

    if y > 0 { newBelow := DecideBelow(l, x, y, z, b, newBelow); }
  }

  /** Both cells are written, unless they hold what is wanted already. */
  method PutBoth(l: Level, x: int, y: int, z: int, o: Outcome, ghost m: seq<Block>, ghost h: Moment<Update>)
    requires l.Valid() && Inside(l.dims, x, y, z) && NONE <= o.below < BLOCKMAX && (y == 0 ==> o.below == NONE)
    requires l.blocks[..] == m && l.queue.Now() == h && Logged(l.dims, m, h, m, h)
    modifies l.blocks, l.queue
    ensures l.Valid() && l.blocks[..] == Placed(l.dims, m, x, y, z, o)
    ensures Logged(l.dims, m, h, l.blocks[..], l.queue.Now())
  {
    hide Inv, Logged, Pack, Volume;
    l.PutIfDifferent(x, y, z, o.here, m, h);
    if o.below != NONE && y > 0 {
      l.PutIfDifferent(x, y - 1, z, o.below, m, h);
    }
  }

  /** `update_block`, except for the packets that go to this client only.  Only one
      column changes, the queue records every change, and the column ends up as the
      decision above, followed by falling sand, says. */
  method UpdateBlock(l: Level, x: int, y: int, z: int, mode: int, block: Block)
    requires l.Valid() && Known(l.dims, l.blocks[..])
    modifies l.blocks, l.queue
    ensures l.Valid()
    ensures Logged(l.dims, old(l.blocks[..]), old(l.queue.Now()), l.blocks[..], l.queue.Now())
    ensures !Inside(l.dims, x, y, z) ==> l.blocks[..] == old(l.blocks[..])
    ensures Inside(l.dims, x, y, z) ==> EditResult(l, old(l.blocks[..]), l.blocks[..], x, y, z, mode, block)
    ensures Known(l.dims, l.blocks[..])
    // nothing is done about a cell that holds what is asked for
    ensures Inside(l.dims, x, y, z) && mode != 2 && old(l.At(x, y, z)) == (if mode == 0 then AIR else Clamp(block)) ==>
              l.blocks[..] == old(l.blocks[..]) && l.queue.Now() == old(l.queue.Now())
    // a falling block above the edit has come to rest
    ensures Inside(l.dims, x, y + 1, z) && Inside(l.dims, x, y, z)
            && (mode == 2 || old(l.At(x, y, z)) != if mode == 0 then AIR else Clamp(block))
            && old(l.At(x, y + 1, z)) != AIR && l.falls[old(l.At(x, y + 1, z))] ==>
              Settle(l.falls, Col(l.dims, l.blocks[..], x, z), y + 1) == Col(l.dims, l.blocks[..], x, z)
  {
    hide Inv, Logged, Decide, Settle, Placed;
    ghost var m, h := l.blocks[..], l.queue.Now();
    LoggedNothing(l.dims, m, h, h);
    if !Inside(l.dims, x, y, z) { return; }
    var b := Wanted(mode, block);
    if l.At(x, y, z) == b && mode != 2 { return; }
    DecideInRange(l.dims, l.defs, m, x, y, z, b);
    var here, newBelow, above := DecideEdit(l, x, y, z, b);
    PutBoth(l, x, y, z, Outcome(here, newBelow), m, h);
    PlacedElsewhere(l.dims, m, x, y, z, Outcome(here, newBelow));
    LetFall(l, x, y, z, here, above, m, h);
    EditKeepsKnown(l, m, l.blocks[..], x, y, z, mode, block);
    ComesToRest(l, m, l.blocks[..], x, y, z, mode, block);
  }

  lemma SettlesFromAbove(falls: Falls, col: seq<Block>, y: nat)
    requires y + 1 < |col| && Loose(falls, col[y + 1])
    ensures Settle(falls, col, y + 1) == Settle(falls, col, y)
  {
  }

  /** Whatever falls has come to rest: what was above the edit, and what it put in over air. */
  lemma ComesToRest(l: Level, m: seq<Block>, m': seq<Block>, x: int, y: int, z: int, mode: int, block: Block)
    requires |m| == |m'| == Volume(l.dims) && DefsOk(l.defs) && Known(l.dims, m) && Inside(l.dims, x, y, z)
    requires EditResult(l, m, m', x, y, z, mode, block)
    ensures var c, b := Col(l.dims, m', x, z), Wanted(mode, block);
            m[Pack(l.dims, x, y, z)] != b || mode == 2 ==>
              (DecideInRange(l.dims, l.defs, m, x, y, z, b);
               var o := Decide(l.dims, l.defs, m, x, y, z, b);
               (y + 1 < l.dims.y && m[Pack(l.dims, x, y + 1, z)] != AIR && l.falls[m[Pack(l.dims, x, y + 1, z)]] ==>
                  Settle(l.falls, c, y + 1) == c)
               && (y > 0 && l.falls[o.here] && Col(l.dims, Placed(l.dims, m, x, y, z, o), x, z)[y - 1] == AIR ==>
                     Settle(l.falls, c, y) == c))
  {
    hide Settle, Decide, Fallen, Placed, SameElsewhere, Col, Pack, Volume, Wanted;
    var d, b := l.dims, Wanted(mode, block);
    if m[Pack(d, x, y, z)] != b || mode == 2 {
      DecideInRange(d, l.defs, m, x, y, z, b);
      var o := Decide(d, l.defs, m, x, y, z, b);
      var c0 := Col(d, Placed(d, m, x, y, z, o), x, z);
      if y + 1 < d.y { PlacedAbove(d, m, x, y, z, o); }
      FallenRests(l.falls, c0, y, o.here, Above(d, m, x, y, z));
    }
  }

  lemma PlacedAbove(d: Dims, m: seq<Block>, x: int, y: int, z: int, o: Outcome)
    requires |m| == Volume(d) && Inside(d, x, y, z) && NONE <= o.below < BLOCKMAX && (y == 0 ==> o.below == NONE)
    requires y + 1 < d.y
    ensures Col(d, Placed(d, m, x, y, z, o), x, z)[y + 1] == m[Pack(d, x, y + 1, z)]
  {
    ColumnPut(d, m, x, y, z, o.here);
    if o.below != NONE { ColumnPut(d, m[Pack(d, x, y, z) := o.here], x, y - 1, z, o.below); }
  }

  lemma FallenRests(falls: Falls, col: seq<Block>, y: nat, here: Block, above: Block)
    requires y < |col| && here < BLOCKMAX && above < BLOCKMAX && (y + 1 < |col| ==> Clamp(col[y + 1]) == above)
    ensures var c := Fallen(falls, col, y, here, above);
            && (y + 1 < |col| && above != AIR && falls[above] ==> Settle(falls, c, y + 1) == c)
            && (y > 0 && falls[here] && col[y - 1] == AIR ==> Settle(falls, c, y) == c)
  {
    hide Settle;
    var c1 := if y > 0 && falls[here] && col[y - 1] == AIR then Settle(falls, col, y) else col;
    if y > 0 && falls[here] && col[y - 1] == AIR { SettleTwice(falls, col, y); }
    if y + 1 < |col| && above != AIR && falls[above] {
      SettleTwice(falls, c1, y + 1);
      StaysLoose(falls, col, y);
      SettlesFromAbove(falls, c1, y);
    }
  }

  /** What an edit inside the map does to it. */
  ghost predicate EditResult(l: Level, m: seq<Block>, m': seq<Block>, x: int, y: int, z: int, mode: int, block: Block)
    requires |m| == |m'| == Volume(l.dims) && DefsOk(l.defs) && Known(l.dims, m) && Inside(l.dims, x, y, z)
  {
    var d, b := l.dims, Wanted(mode, block);
    DecideInRange(d, l.defs, m, x, y, z, b);
    if m[Pack(d, x, y, z)] == b && mode != 2 then m' == m
    else
      var o := Decide(d, l.defs, m, x, y, z, b);
      && SameElsewhere(d, m, m', x, z)
      && Col(d, m', x, z) == Fallen(l.falls, Col(d, Placed(d, m, x, y, z, o), x, z), y, o.here, Above(d, m, x, y, z))
  }
}
