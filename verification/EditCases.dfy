/** What an edit comes to, case by case: as a player sees it. */
module EditCases {
  import opened World
  import opened FallingSand
  import opened Level
  import opened Edits

  /** The block asked for: none if the player digs. */
  function Asked(mode: int, block: Block): Block {
    if mode == 0 then AIR else if block < BLOCKMAX then block else 1023
  }

  /** A block that does not stack, wither or grow. */
  predicate Inert(def: BlockDef) {
    def.stackBlock == 0 && def.dirtBlock == 0 && def.grassBlock == 0
  }

  /** An edit of a cell on the map that does not hold what is asked for. */
  ghost predicate Edited(l: Level, m: seq<Block>, m': seq<Block>, x: int, y: int, z: int, mode: int, block: Block) {
    && |m| == |m'| == Volume(l.dims) && DefsOk(l.defs) && Known(l.dims, m) && Inside(l.dims, x, y, z)
    && EditResult(l, m, m', x, y, z, mode, block) && m[Pack(l.dims, x, y, z)] != Asked(mode, block)
  }

  lemma PlacedColumn(d: Dims, m: seq<Block>, x: int, y: int, z: int, o: Outcome)
    requires |m| == Volume(d) && Inside(d, x, y, z) && NONE <= o.below < BLOCKMAX && (y == 0 ==> o.below == NONE)
    ensures Col(d, Placed(d, m, x, y, z, o), x, z)
         == if o.below == NONE then Col(d, m, x, z)[y := o.here] else Col(d, m, x, z)[y := o.here][y - 1 := o.below]
  {
    ColumnPut(d, m, x, y, z, o.here);
    if o.below != NONE { ColumnPut(d, m[Pack(d, x, y, z) := o.here], x, y - 1, z, o.below); }
  }

  /** What is left to say of an edit is what its two cells become and what then falls. */
  lemma EditedColumn(l: Level, m: seq<Block>, m': seq<Block>, x: int, y: int, z: int, mode: int, block: Block)
    returns (o: Outcome)
    requires Edited(l, m, m', x, y, z, mode, block)
    ensures o == Decide(l.dims, l.defs, m, x, y, z, Asked(mode, block))
    ensures o.here < BLOCKMAX && NONE <= o.below < BLOCKMAX && (y == 0 ==> o.below == NONE)
    ensures SameElsewhere(l.dims, m, m', x, z)
    ensures Col(l.dims, m', x, z)
         == Fallen(l.falls, if o.below == NONE then Col(l.dims, m, x, z)[y := o.here]
                            else Col(l.dims, m, x, z)[y := o.here][y - 1 := o.below],
                   y, o.here, Above(l.dims, m, x, y, z))
  {
    hide Decide, Fallen, Col, SameElsewhere;
    assert Wanted(mode, block) == Asked(mode, block);
    DecideInRange(l.dims, l.defs, m, x, y, z, Asked(mode, block));
    o := Decide(l.dims, l.defs, m, x, y, z, Asked(mode, block));
    PlacedColumn(l.dims, m, x, y, z, o);
  }

  /** The blocks around a cell of the map; air beyond its top, and below its floor. */
  function Over(d: Dims, m: seq<Block>, x: int, y: int, z: int): Block
    requires |m| == Volume(d) && Inside(d, x, y, z)
  {
    if Inside(d, x, y + 1, z) then m[Pack(d, x, y + 1, z)] else 0
  }

  function Under(d: Dims, m: seq<Block>, x: int, y: int, z: int): Block
    requires |m| == Volume(d) && Inside(d, x, y, z)
  {
    if Inside(d, x, y - 1, z) then m[Pack(d, x, y - 1, z)] else 0
  }

  /** The surroundings play no part: what is above stays up, what is below neither grows nor
      withers. */
  ghost predicate Calm(l: Level, m: seq<Block>, x: int, y: int, z: int)
    requires |m| == Volume(l.dims) && DefsOk(l.defs) && Known(l.dims, m) && Inside(l.dims, x, y, z)
  {
    && !l.falls[Over(l.dims, m, x, y, z)]
    && (y > 0 ==> l.defs[Under(l.dims, m, x, y, z)].dirtBlock == 0 && l.defs[Under(l.dims, m, x, y, z)].grassBlock == 0)
  }

  /** Digging leaves air, and what falls comes down into it. */
  lemma Dug(l: Level, m: seq<Block>, m': seq<Block>, x: int, y: int, z: int, block: Block)
    requires Edited(l, m, m', x, y, z, 0, block)
    requires Inert(l.defs[AIR]) && !l.falls[AIR]
    requires y > 0 ==> var def := l.defs[Under(l.dims, m, x, y, z)]; def.dirtBlock == 0 && def.grassBlock == 0
    ensures SameElsewhere(l.dims, m, m', x, z)
    ensures var c := Col(l.dims, m, x, z)[y := AIR];
            Col(l.dims, m', x, z) == (
              if y + 1 < l.dims.y && l.falls[Over(l.dims, m, x, y, z)] then Settle(l.falls, c, y + 1) else c)
  {
    hide Settle, SameElsewhere;
    var o := EditedColumn(l, m, m', x, y, z, 0, block);
    assert o == Outcome(AIR, NONE);
  }

  /** A block that neither grows nor withers is put where it is asked for, and a slab, too, unless
      it goes into the air above one of its kind.  If it falls and there is nothing below, it
      falls from there. */
  lemma Put(l: Level, m: seq<Block>, m': seq<Block>, x: int, y: int, z: int, mode: int, block: Block)
    requires Edited(l, m, m', x, y, z, mode, block) && mode != 0 && block < BLOCKMAX
    requires l.defs[block].dirtBlock == 0 && l.defs[block].grassBlock == 0 && Calm(l, m, x, y, z)
    requires l.defs[block].stackBlock == 0 || m[Pack(l.dims, x, y, z)] != AIR || y == 0
             || Under(l.dims, m, x, y, z) != block
    ensures SameElsewhere(l.dims, m, m', x, z)
    ensures var c := Col(l.dims, m, x, z)[y := block];
            Col(l.dims, m', x, z) == (
              if y > 0 && l.falls[block] && Under(l.dims, m, x, y, z) == AIR then Settle(l.falls, c, y) else c)
  {
    hide Settle, SameElsewhere;
    var o := EditedColumn(l, m, m', x, y, z, mode, block);
    assert o == Outcome(block, NONE);
  }

  /** An opaque block on grass turns it to dirt. */
  lemma GrassCovered(l: Level, m: seq<Block>, m': seq<Block>, x: int, y: int, z: int, mode: int, block: Block)
    requires Edited(l, m, m', x, y, z, mode, block) && mode != 0 && block < BLOCKMAX
    requires Inert(l.defs[block]) && !l.defs[block].transmitsLight && !l.falls[block]
    requires y > 0 && l.defs[Under(l.dims, m, x, y, z)].dirtBlock != 0 && !l.falls[Over(l.dims, m, x, y, z)]
    ensures SameElsewhere(l.dims, m, m', x, z)
    ensures Col(l.dims, m', x, z)
         == Col(l.dims, m, x, z)[y := block][y - 1 := l.defs[Under(l.dims, m, x, y, z)].dirtBlock]
  {
    hide Settle, SameElsewhere;
    var o := EditedColumn(l, m, m', x, y, z, mode, block);
    assert o == Outcome(block, l.defs[Under(l.dims, m, x, y, z)].dirtBlock);
  }

  /** Digging above dirt lets it grow, if there is grass of its kind beside it, and only then. */
  lemma DirtUncovered(l: Level, m: seq<Block>, m': seq<Block>, x: int, y: int, z: int, block: Block)
    requires Edited(l, m, m', x, y, z, 0, block)
    requires Inert(l.defs[AIR]) && l.defs[AIR].transmitsLight && !l.falls[AIR] && !l.falls[Over(l.dims, m, x, y, z)]
    requires y > 0 && l.defs[Under(l.dims, m, x, y, z)].grassBlock != 0
             && l.defs[Under(l.dims, m, x, y, z)].grassBlock != Under(l.dims, m, x, y, z)
    ensures SameElsewhere(l.dims, m, m', x, z)
    ensures var grass := l.defs[Under(l.dims, m, x, y, z)].grassBlock;
            Col(l.dims, m', x, z) == (
              if exists x', y', z' ::
                   && Inside(l.dims, x', y', z') && m[Pack(l.dims, x', y', z')] == grass
                   && x - 1 <= x' <= x + 1 && y - 2 <= y' <= y && z - 1 <= z' <= z + 1
                   && !(x' == x && y' == y - 1 && z' == z)
              then Col(l.dims, m, x, z)[y := AIR][y - 1 := grass] else Col(l.dims, m, x, z)[y := AIR])
  {
    hide Settle, SameElsewhere;
    var o := EditedColumn(l, m, m', x, y, z, 0, block);
    var grass := l.defs[Under(l.dims, m, x, y, z)].grassBlock;
    assert o == Outcome(AIR, if NextTo(l.dims, m, x, y - 1, z, grass) then grass else NONE);
  }

  /** Dirt put in the light becomes grass beside grass of its kind, and stays dirt elsewhere. */
  lemma DirtPut(l: Level, m: seq<Block>, m': seq<Block>, x: int, y: int, z: int, mode: int, block: Block)
    requires Edited(l, m, m', x, y, z, mode, block) && mode != 0 && block < BLOCKMAX
    requires var def := l.defs[block];
             && def.grassBlock != 0 && def.stackBlock == 0 && l.defs[Over(l.dims, m, x, y, z)].transmitsLight
             && def.grassBlock != m[Pack(l.dims, x, y, z)] && !l.falls[block] && !l.falls[def.grassBlock]
    requires Calm(l, m, x, y, z)
    ensures SameElsewhere(l.dims, m, m', x, z)
    ensures var grass := l.defs[block].grassBlock;
            Col(l.dims, m', x, z)[y] == (
              if exists x', y', z' ::
                   && Inside(l.dims, x', y', z') && m[Pack(l.dims, x', y', z')] == grass
                   && x - 1 <= x' <= x + 1 && y - 1 <= y' <= y + 1 && z - 1 <= z' <= z + 1
                   && !(x' == x && y' == y && z' == z)
              then grass else block)
  {
    hide Settle, SameElsewhere;
    var o := EditedColumn(l, m, m', x, y, z, mode, block);
    var grass := l.defs[block].grassBlock;
    assert o == Outcome(if NextTo(l.dims, m, x, y, z, grass) then grass else block, NONE);
  }

  /** Putting dirt in place of its grass in the light, or grass in place of its dirt in the dark,
      leaves what was put. */
  lemma NotStraightBack(l: Level, m: seq<Block>, m': seq<Block>, x: int, y: int, z: int, mode: int, block: Block)
    requires Edited(l, m, m', x, y, z, mode, block) && mode != 0 && block < BLOCKMAX
    requires l.defs[block].stackBlock == 0 && !l.falls[block] && Calm(l, m, x, y, z)
    requires m[Pack(l.dims, x, y, z)]
          == if l.defs[Over(l.dims, m, x, y, z)].transmitsLight then l.defs[block].grassBlock
             else l.defs[block].dirtBlock
    ensures SameElsewhere(l.dims, m, m', x, z)
    ensures Col(l.dims, m', x, z) == Col(l.dims, m, x, z)[y := block]
  {
    hide Settle, SameElsewhere;
    var o := EditedColumn(l, m, m', x, y, z, mode, block);
    assert o == Outcome(block, NONE);
  }

  /** Grass put in the dark is dirt. */
  lemma GrassPutInTheDark(l: Level, m: seq<Block>, m': seq<Block>, x: int, y: int, z: int, mode: int, block: Block)
    requires Edited(l, m, m', x, y, z, mode, block) && mode != 0 && block < BLOCKMAX
    requires var def := l.defs[block];
             && def.dirtBlock != 0 && def.stackBlock == 0 && !l.defs[Over(l.dims, m, x, y, z)].transmitsLight
             && def.dirtBlock != m[Pack(l.dims, x, y, z)] && !l.falls[def.dirtBlock]
    requires Calm(l, m, x, y, z)
    ensures SameElsewhere(l.dims, m, m', x, z)
    ensures Col(l.dims, m', x, z) == Col(l.dims, m, x, z)[y := l.defs[block].dirtBlock]
  {
    hide Settle, SameElsewhere;
    var o := EditedColumn(l, m, m', x, y, z, mode, block);
    assert o == Outcome(l.defs[block].dirtBlock, NONE);
  }

  /** One slab on another makes a whole block in the lower cell. */
  lemma SlabOnSlab(l: Level, m: seq<Block>, m': seq<Block>, x: int, y: int, z: int, mode: int, block: Block)
    requires Edited(l, m, m', x, y, z, mode, block) && mode != 0 && block < BLOCKMAX
    requires y > 0 && l.defs[block].stackBlock != 0 && m[Pack(l.dims, x, y, z)] == AIR
             && Under(l.dims, m, x, y, z) == block
    requires Inert(l.defs[AIR]) && !l.falls[AIR] && Calm(l, m, x, y, z)
    ensures SameElsewhere(l.dims, m, m', x, z)
    ensures Col(l.dims, m', x, z) == Col(l.dims, m, x, z)[y - 1 := l.defs[block].stackBlock]
  {
    hide Settle, SameElsewhere;
    var o := EditedColumn(l, m, m', x, y, z, mode, block);
    assert o == Outcome(AIR, l.defs[block].stackBlock);
    assert Col(l.dims, m, x, z)[y := AIR] == Col(l.dims, m, x, z);
  }
}
