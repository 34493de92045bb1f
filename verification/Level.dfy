/** Editing a level: every change goes to the block array and to the block queue. */
module Level {
  import opened Ring
  import opened World
  import opened BlockQueue
  import opened FallingSand
  import opened SandSteps

  /** The parts of a block definition that editing looks at; 0 means "no such block". */
  datatype BlockDef = BlockDef(
    stackBlock: Block, dirtBlock: Block, grassBlock: Block, transmitsLight: bool, fastFall: bool)

  ghost predicate DefsOk(defs: seq<BlockDef>) {
    && |defs| == BLOCKMAX
    && forall i :: 0 <= i < BLOCKMAX ==>
         defs[i].stackBlock < BLOCKMAX && defs[i].dirtBlock < BLOCKMAX && defs[i].grassBlock < BLOCKMAX
  }

  /** Replaying what was appended to the queue on the old map gives the new map; and whoever had
      a place in the queue still stands where it stood, with all of that before it. */
  ghost predicate Logged(d: Dims, m: seq<Block>, h: Moment<Update>, m': seq<Block>, h': Moment<Update>)
    requires |m| == Volume(d)
  {
    && h.trace.hist <= h'.trace.hist && AllFit(d, h'.trace.hist[|h.trace.hist|..])
    && Replay(d, m, h'.trace.hist[|h.trace.hist|..]) == m'
    && NobodyMoved(h, h')
  }

  lemma LoggedPut(d: Dims, m: seq<Block>, h: Moment<Update>, m1: seq<Block>, h1: Moment<Update>, h2: Moment<Update>,
                  u: Update)
    requires |m| == Volume(d) && Logged(d, m, h, m1, h1) && Fits(d, u)
    requires h2.trace.hist == h1.trace.hist + [u] && NobodyMoved(h1, h2)
    ensures Logged(d, m, h, m1[Cell(d, u) := u.b], h2)
  {
    hide NobodyMoved;
    NobodyMovedTwice(h, h1, h2);
    var n := |h.trace.hist|;
    assert h2.trace.hist[n..] == h1.trace.hist[n..] + [u];
    ReplayOne(d, m, h1.trace.hist[n..], u);
  }

  lemma LoggedTransitive(d: Dims, m: seq<Block>, h: Moment<Update>, m1: seq<Block>, h1: Moment<Update>,
                         m2: seq<Block>, h2: Moment<Update>)
    requires |m| == Volume(d) && Logged(d, m, h, m1, h1) && Logged(d, m1, h1, m2, h2)
    ensures Logged(d, m, h, m2, h2)
  {
    hide NobodyMoved;
    NobodyMovedTwice(h, h1, h2);
    var n, n1 := |h.trace.hist|, |h1.trace.hist|;
    assert h2.trace.hist[n..] == h1.trace.hist[n..] + h2.trace.hist[n1..];
    ReplayConcat(d, m, h1.trace.hist[n..], h2.trace.hist[n1..]);
  }

  /** Nothing was appended. */
  lemma LoggedNothing(d: Dims, m: seq<Block>, h: Moment<Update>, h': Moment<Update>)
    requires |m| == Volume(d) && h'.trace.hist == h.trace.hist && NobodyMoved(h, h')
    ensures Logged(d, m, h, m, h')
  {
    assert h'.trace.hist[|h.trace.hist|..] == [];
  }

  // ---- Columns of the flat array ---------------------------------------------------------

  function Col(d: Dims, m: seq<Block>, x: int, z: int): (c: seq<Block>)
    requires |m| == Volume(d) && 0 <= x < d.x && 0 <= z < d.z
    ensures |c| == d.y
  {
    seq(d.y, y requires 0 <= y < d.y => m[Pack(d, x, y, z)])
  }

  ghost predicate SameElsewhere(d: Dims, m: seq<Block>, m': seq<Block>, x: int, z: int)
    requires |m| == |m'| == Volume(d)
  {
    forall x', y', z' :: Inside(d, x', y', z') && (x' != x || z' != z) ==>
      m'[Pack(d, x', y', z')] == m[Pack(d, x', y', z')]
  }

  lemma ColumnPut(d: Dims, m: seq<Block>, x: int, y: int, z: int, b: Block)
    requires |m| == Volume(d) && Inside(d, x, y, z)
    ensures Col(d, m[Pack(d, x, y, z) := b], x, z) == Col(d, m, x, z)[y := b]
    ensures SameElsewhere(d, m, m[Pack(d, x, y, z) := b], x, z)
  {
    var m' := m[Pack(d, x, y, z) := b];
    forall x', y', z' | Inside(d, x', y', z') && !(x' == x && y' == y && z' == z)
      ensures m'[Pack(d, x', y', z')] == m[Pack(d, x', y', z')]
    {
      if Pack(d, x', y', z') == Pack(d, x, y, z) { PackInjective(d, x', y', z', x, y, z); }
    }
  }

  /** A move within one column, seen from the flat array. */
  lemma ColumnMove(d: Dims, m0: seq<Block>, m: seq<Block>, x: int, z: int, newY: int, oldY: int, b: Block)
    requires |m0| == |m| == Volume(d) && Inside(d, x, newY, z) && Inside(d, x, oldY, z)
    requires SameElsewhere(d, m0, m, x, z)
    ensures var m' := m[Pack(d, x, newY, z) := b][Pack(d, x, oldY, z) := AIR];
            && Col(d, m', x, z) == Col(d, m, x, z)[newY := b][oldY := AIR]
            && SameElsewhere(d, m0, m', x, z)
  {
    ColumnPut(d, m, x, newY, z, b);
    ColumnPut(d, m[Pack(d, x, newY, z) := b], x, oldY, z, AIR);
  }

  /** Where the two indices stand: nothing moved yet, or everything up to `r` packed. */
  ghost predicate Progress(c0: seq<Block>, minY: int, a: nat, r: nat, newY: int, oldY: int, savY: int) {
    && 0 <= minY <= a <= r <= |c0|
    && FirstAir(c0, minY) == a
    && (r == a ==> newY == oldY == minY && savY == -1)
    && (r > a ==>
          && c0[a] == AIR && c0[r - 1] != AIR && r == oldY
          && newY == a + |Solids(c0[a..r])| - 1 && a <= newY && savY == r - 1)
  }

  /** The next gap is where the packed part of the column ends. */
  lemma GapIs(c0: seq<Block>, minY: int, a: nat, r: nat, newY: int, oldY: int, savY: int, gap: int)
    requires Progress(c0, minY, a, r, newY, oldY, savY)
    requires newY <= gap <= |c0|
    requires gap < |c0| ==> Packed(c0, a, r)[gap] == AIR
    requires forall i :: newY <= i < gap ==> Packed(c0, a, r)[i] != AIR
    ensures gap == a + |Solids(c0[a..r])|
    ensures r > a ==> gap < r
  {
    var k := |Solids(c0[a..r])|;
    if r > a {
      SolidsFewer(c0, a, r);
      assert Packed(c0, a, r)[a + k] == AIR;
      assert Packed(c0, a, r)[a + k - 1] == Solids(c0[a..r])[k - 1];
    } else {
      PackedNothing(c0, a);
      assert c0[a..r] == [];
      assert a < |c0| ==> Packed(c0, a, r)[a] == AIR;
    }
  }

  /** What a move into the gap, of the next block above it, does to the column. */
  lemma NextMove(c0: seq<Block>, minY: int, a: nat, r: nat, newY: int, oldY: int, savY: int, gap: int, q: int)
    requires Progress(c0, minY, a, r, newY, oldY, savY)
    requires gap == a + |Solids(c0[a..r])| < |c0| && (r > a ==> gap < r)
    requires r <= q < |c0| && c0[q] != AIR
    requires forall i :: r <= i < q ==> c0[i] == AIR
    ensures gap < q
    ensures Packed(c0, a, r)[gap := Clamp(c0[q])][q := AIR] == Packed(c0, a, q + 1)
    ensures Progress(c0, minY, a, q + 1, gap, q + 1, q)
  {
    assert r == a ==> c0[a..r] == [];
    SolidsPlusAir(c0, a, r, q);
    PackedAir(c0, a, r, q);
    PackedDrop(c0, a, q);
  }

  lemma AboveIs(c0: seq<Block>, a: nat, r: nat, q: int)
    requires a <= r <= q <= |c0|
    requires forall i :: r <= i < q ==> Packed(c0, a, r)[i] == AIR
    ensures forall i :: r <= i < q ==> c0[i] == AIR
    ensures q < |c0| ==> Packed(c0, a, r)[q] == c0[q]
  {
    forall i | r <= i < q ensures c0[i] == AIR { assert Packed(c0, a, r)[i] == c0[i]; }
  }

  /** A move that takes the packed part of the column one block further up. */
  ghost predicate GoodDrop(c0: seq<Block>, minY: int, a: nat, e: nat, r: nat, newY: int, oldY: int, toMove: Block) {
    && a <= r <= oldY < e <= |c0| && 0 <= newY < oldY
    && toMove == Clamp(c0[oldY]) && toMove != AIR
    && newY == a + |Solids(c0[a..r])| && (forall i :: r <= i < oldY ==> c0[i] == AIR)
    && Packed(c0, a, r)[newY] == AIR && Packed(c0, a, r)[oldY] == c0[oldY]
    && Packed(c0, a, r)[newY := toMove][oldY := AIR] == Packed(c0, a, oldY + 1)
    && Progress(c0, minY, a, oldY + 1, newY, oldY + 1, oldY)
  }

  class Level {
    const dims: Dims
    const defs: seq<BlockDef>
    /** The definitions' fall flags, as a table. */
    const falls: Falls
    const blocks: array<Block>
    const queue: Queue

    /** Coordinates must fit the 16 bits they get in the queue. */
    ghost predicate Valid()
      reads this, blocks, queue
    {
      && DefsOk(defs) && queue.Valid()
      && (forall i :: 0 <= i < BLOCKMAX ==> falls[i] == defs[i].fastFall)
      && blocks.Length == Volume(dims)
      && dims.x <= 0x1_0000 && dims.y <= 0x1_0000 && dims.z <= 0x1_0000
    }

    function At(x: int, y: int, z: int): Block
      requires blocks.Length == Volume(dims) && Inside(dims, x, y, z)
      reads blocks
    {
      blocks[Pack(dims, x, y, z)]
    }

    constructor (dims: Dims, defs: seq<BlockDef>, blocks: array<Block>, queue: Queue)
      requires DefsOk(defs) && queue.Valid() && blocks.Length == Volume(dims)
      requires dims.x <= 0x1_0000 && dims.y <= 0x1_0000 && dims.z <= 0x1_0000
      ensures Valid() && this.dims == dims && this.defs == defs && this.blocks == blocks && this.queue == queue
    {
      this.dims, this.defs, this.blocks, this.queue := dims, defs, blocks, queue;
      falls := seq(BLOCKMAX, i requires 0 <= i < BLOCKMAX => defs[i].fastFall);
    }

    /** Writes one cell and queues the change. */
    method Put(x: int, y: int, z: int, b: Block)
      requires Valid() && Inside(dims, x, y, z)
      modifies blocks, queue
      ensures Valid()
      ensures blocks[..] == old(blocks[..])[Pack(dims, x, y, z) := b]
      ensures queue.trace.hist == old(queue.trace.hist) + [Update(x, y, z, b)]
      ensures NobodyMoved(old(queue.Now()), queue.Now())
    {
      blocks[Pack(dims, x, y, z)] := b;
      queue.SendUpdate(Update(x, y, z, b));
    }

    /** `check_for_sand`, going down: to the first block that stays put. */
    method FindFloor(x: int, y: int, z: int) returns (minY: int)
      requires Valid() && Inside(dims, x, y, z)
      ensures minY == Floor(falls, Col(dims, blocks[..], x, z), y)
    {
      ghost var col := Col(dims, blocks[..], x, z);
      minY := y;
      while minY > 0
        invariant 0 <= minY <= y && Floor(falls, col, y) == Floor(falls, col, minY)
      {
        var blk := Clamp(At(x, minY, z));
        if blk != AIR && !defs[blk].fastFall { break; }
        minY := minY - 1;
      }
    }

    /** ... going up: to the next air (or, `wantAir` being false, the next block). */
    method NextCell(x: int, from: int, z: int, wantAir: bool, ghost col: seq<Block>) returns (y: int)
      requires Valid() && 0 <= x < dims.x && 0 <= z < dims.z && 0 <= from <= dims.y
      requires col == Col(dims, blocks[..], x, z)
      ensures from <= y <= dims.y
      ensures forall i :: from <= i < y ==> (col[i] == AIR) != wantAir
      ensures y < dims.y ==> (col[y] == AIR) == wantAir && col[y] == At(x, y, z)
    {
      y := from;
      while y < dims.y
        invariant from <= y <= dims.y
        invariant forall i :: from <= i < y ==> (col[i] == AIR) != wantAir
      {
        assert col[y] == At(x, y, z);
        var blk := Clamp(At(x, y, z));
        if (blk == AIR) == wantAir { break; }
        y := y + 1;
      }
    }

    /** The map with the last moved block still where it came from: that is what the
        queue has been told, because the air left behind is announced late. */
    ghost function Restored(m: seq<Block>, x: int, savY: int, z: int, savB: Block): (r: seq<Block>)
      requires |m| == Volume(dims) && (savY >= 0 ==> Inside(dims, x, savY, z))
      ensures |r| == |m|
    {
      if savY >= 0 then m[Pack(dims, x, savY, z) := savB] else m
    }

    /** ... announcing the air above the previous move, if there was one. */
    method AnnounceAir(x: int, savY: int, z: int, savB: Block, ghost m0: seq<Block>, ghost h0: Moment<Update>)
      requires Valid() && |m0| == Volume(dims)
      requires savY == -1 || (Inside(dims, x, savY, z) && At(x, savY, z) == AIR)
      requires Logged(dims, m0, h0, Restored(blocks[..], x, savY, z, savB), queue.Now())
      modifies queue
      ensures Valid()
      ensures Logged(dims, m0, h0, blocks[..], queue.Now())
      ensures queue.trace.hist == old(queue.trace.hist) + if savY >= 0 then [Update(x, savY, z, AIR)] else []
    {
      if 0 <= savY < dims.y {
        ghost var u := Update(x, savY, z, AIR);
        ghost var told, was := Restored(blocks[..], x, savY, z, savB), queue.Now();
        queue.SendUpdate(Update(x, savY, z, AIR));
        LoggedPut(dims, m0, h0, told, was, queue.Now(), u);
        assert told[Cell(dims, u) := AIR] == blocks[..];
      }
    }

    method AnnounceLanded(x: int, savY: int, z: int, savB: Block, ghost m0: seq<Block>, ghost h0: Moment<Update>,
                          ghost did0: seq<Doing>)
      returns (ghost did: seq<Doing>)
      requires Valid() && |m0| == Volume(dims) && 0 <= x < dims.x && 0 <= z < dims.z
      requires savY == -1 || (Inside(dims, x, savY, z) && At(x, savY, z) == AIR)
      requires Logged(dims, m0, h0, Restored(blocks[..], x, savY, z, savB), queue.Now())
      requires Traced(dims, x, z, m0, h0.trace.hist, blocks[..], queue.trace.hist, did0)
      modifies queue
      ensures Valid()
      ensures Logged(dims, m0, h0, blocks[..], queue.Now())
      ensures Traced(dims, x, z, m0, h0.trace.hist, blocks[..], queue.trace.hist, did)
      ensures did == did0 + Landed(savY)
    {
      hide Traced, Logged, Inv, Pack, Volume;
      ghost var h := queue.trace.hist;
      AnnounceAir(x, savY, z, savB, m0, h0);
      did := did0;
      if savY < 0 {
        assert h + [] == h;
      } else {
        TracedEntry(dims, x, z, m0, h0.trace.hist, blocks[..], h, did0, savY, AIR);
        did := did0 + [Queued(savY, AIR)];
      }
    }

    /** ... before a block lands in `newY`: the same, unless it is exactly there that the
        block lands; then that cell gets its old block back, so that an equal block need
        not be announced. */
    method AnnounceGap(x: int, newY: int, z: int, savY: int, savB: Block,
                       ghost m0: seq<Block>, ghost h0: Moment<Update>, ghost did0: seq<Doing>)
      returns (ghost did: seq<Doing>)
      requires Valid() && Inside(dims, x, newY, z) && |m0| == Volume(dims)
      requires Traced(dims, x, z, m0, h0.trace.hist, blocks[..], queue.trace.hist, did0)
      requires savY == -1 || (Inside(dims, x, savY, z) && At(x, savY, z) == AIR)
      requires Logged(dims, m0, h0, Restored(blocks[..], x, savY, z, savB), queue.Now())
      modifies blocks, queue
      ensures Valid()
      ensures blocks[..] == if savY == newY then old(blocks[..])[Pack(dims, x, newY, z) := savB] else old(blocks[..])
      ensures Logged(dims, m0, h0, blocks[..], queue.Now())
      ensures Traced(dims, x, z, m0, h0.trace.hist, blocks[..], queue.trace.hist, did)
      ensures did == did0 + if savY == newY then [Wrote(newY, savB)] else Landed(savY)
    {
      hide Traced;
      if savY == newY {
        TracedWrite(dims, x, z, m0, h0.trace.hist, blocks[..], queue.trace.hist, did0, newY, savB);
        blocks[Pack(dims, x, savY, z)] := savB;
        did := did0 + [Wrote(newY, savB)];
        assert blocks[..] == old(blocks[..])[Pack(dims, x, newY, z) := savB];
      } else {
        did := AnnounceLanded(x, savY, z, savB, m0, h0, did0);
      }
    }

    method PutIfDifferent(x: int, y: int, z: int, b: Block, ghost m0: seq<Block>, ghost h0: Moment<Update>)
      requires Valid() && Inside(dims, x, y, z) && |m0| == Volume(dims)
      requires Logged(dims, m0, h0, blocks[..], queue.Now())
      modifies blocks, queue
      ensures Valid()
      ensures blocks[..] == old(blocks[..])[Pack(dims, x, y, z) := b]
      ensures Logged(dims, m0, h0, blocks[..], queue.Now())
      ensures queue.trace.hist == old(queue.trace.hist) + if old(At(x, y, z)) != b then [Update(x, y, z, b)] else []
    {
      if At(x, y, z) != b {
        ghost var m, was := blocks[..], queue.Now();
        Put(x, y, z, b);
        LoggedPut(dims, m0, h0, m, was, queue.Now(), Update(x, y, z, b));
      }
    }

    method PutFallen(x: int, y: int, z: int, b: Block, ghost m0: seq<Block>, ghost h0: Moment<Update>,
                     ghost did0: seq<Doing>)
      returns (ghost did: seq<Doing>)
      requires Valid() && Inside(dims, x, y, z) && |m0| == Volume(dims)
      requires Logged(dims, m0, h0, blocks[..], queue.Now())
      requires Traced(dims, x, z, m0, h0.trace.hist, blocks[..], queue.trace.hist, did0)
      modifies blocks, queue
      ensures Valid()
      ensures blocks[..] == old(blocks[..])[Pack(dims, x, y, z) := b]
      ensures Logged(dims, m0, h0, blocks[..], queue.Now())
      ensures Traced(dims, x, z, m0, h0.trace.hist, blocks[..], queue.trace.hist, did)
      ensures did == did0 + if old(At(x, y, z)) != b then [Wrote(y, b), Queued(y, b)] else []
    {
      hide Traced, Logged, Inv, Pack, Volume;
      ghost var m, h := blocks[..], queue.trace.hist;
      did := did0;
      PutIfDifferent(x, y, z, b, m0, h0);
      if m[Pack(dims, x, y, z)] != b {
        TracedWrite(dims, x, z, m0, h0.trace.hist, m, h, did0, y, b);
        TracedEntry(dims, x, z, m0, h0.trace.hist, blocks[..], h, did0 + [Wrote(y, b)], y, b);
        did := did0 + [Wrote(y, b)] + [Queued(y, b)];
      } else {
        assert blocks[..] == m && h + [] == h;
      }
    }

    /** ... moving one block down from `oldY` to `newY`; the air it leaves behind is
        not announced yet. */
    method MoveDown(x: int, newY: int, oldY: int, z: int, toMove: Block, savY0: int, savB0: Block,
                    ghost m0: seq<Block>, ghost h0: Moment<Update>, ghost did0: seq<Doing>)
      returns (savY: int, savB: Block, ghost did: seq<Doing>)
      requires Valid() && Inside(dims, x, newY, z) && Inside(dims, x, oldY, z) && newY < oldY
      requires savY0 == -1 || (0 <= savY0 < oldY && At(x, savY0, z) == AIR)
      requires At(x, newY, z) == AIR && toMove != AIR
      requires |m0| == Volume(dims)
      requires Traced(dims, x, z, m0, h0.trace.hist, blocks[..], queue.trace.hist, did0)
      requires Logged(dims, m0, h0, Restored(blocks[..], x, savY0, z, savB0), queue.Now())
      modifies blocks, queue
      ensures Valid()
      ensures savY == oldY && savB == old(At(x, oldY, z))
      ensures blocks[..] == old(blocks[..])[Pack(dims, x, newY, z) := toMove][Pack(dims, x, oldY, z) := AIR]
      ensures Logged(dims, m0, h0, Restored(blocks[..], x, savY, z, savB), queue.Now())
      ensures Traced(dims, x, z, m0, h0.trace.hist, blocks[..], queue.trace.hist, did)
      ensures did == did0 + MoveDoings(newY, oldY, toMove, savY0, savB0)
    {
      hide Traced, Logged;
      ghost var was := blocks[..];
      ghost var to, from := Pack(dims, x, newY, z), Pack(dims, x, oldY, z);
      if to == from { PackInjective(dims, x, newY, z, x, oldY, z); }
      did := AnnounceGap(x, newY, z, savY0, savB0, m0, h0, did0);
      did := PutFallen(x, newY, z, toMove, m0, h0, did);
      ghost var told := blocks[..];
      assert told == was[to := toMove];
      savY := oldY;
      savB := At(x, savY, z);
      TracedWrite(dims, x, z, m0, h0.trace.hist, blocks[..], queue.trace.hist, did, oldY, AIR);
      blocks[Pack(dims, x, oldY, z)] := AIR;
      did := did + [Wrote(oldY, AIR)];
      assert blocks[..] == told[from := AIR];
      assert Restored(blocks[..], x, savY, z, savB) == told;
    }

    /** What the loop of `check_for_sand` keeps.  `c0` is the column before the call,
        `a..e` the stretch that settles, and `r` how far up it has been dealt with. */
    ghost predicate Settling(x: int, z: int, minY: int, c0: seq<Block>, a: nat, e: nat, r: nat,
                             newY: int, oldY: int, savY: int, savB: Block, m0: seq<Block>, h0: Moment<Update>)
      requires Valid() && 0 <= x < dims.x && 0 <= z < dims.z && |m0| == Volume(dims)
      reads this, blocks, queue
    {
      && |c0| == dims.y && 0 <= minY < dims.y && r <= e <= |c0|
      && Progress(c0, minY, a, r, newY, oldY, savY)
      && Col(dims, blocks[..], x, z) == Packed(c0, a, r)
      && SameElsewhere(dims, m0, blocks[..], x, z)
      && Logged(dims, m0, h0, Restored(blocks[..], x, savY, z, savB), queue.Now())
    }

    /** ... and what has been done so far. */
    ghost predicate Recounted(x: int, z: int, c0: seq<Block>, a: nat, r: nat, savY: int, savB: Block,
                              m0: seq<Block>, h0: Moment<Update>, did: seq<Doing>)
      requires 0 <= x < dims.x && 0 <= z < dims.z && |m0| == Volume(dims) && a <= r <= |c0|
      reads this, blocks, queue
    {
      && savY == LastSolid(c0, a, r) && savB == BlockAt(c0, savY) && did == Moves(c0, a, r)
      && Traced(dims, x, z, m0, h0.trace.hist, blocks[..], queue.trace.hist, did)
    }

    /** One trip through that loop: where the next block falls from and to, if any does. */
    method FindDrop(x: int, z: int, newY0: int, oldY0: int,
                    ghost minY: int, ghost c0: seq<Block>, ghost a: nat, ghost e: nat, ghost r: nat, ghost savY: int)
      returns (found: bool, newY: int, oldY: int, toMove: Block)
      requires Valid() && 0 <= x < dims.x && 0 <= z < dims.z
      requires |c0| == dims.y && 0 <= oldY0 < |c0| && r <= e
      requires Progress(c0, minY, a, r, newY0, oldY0, savY)
      requires Col(dims, blocks[..], x, z) == Packed(c0, a, r)
      requires e == FirstFirm(falls, c0, a)
      ensures !found ==> Packed(c0, a, r) == Packed(c0, a, e) && forall i :: r <= i < e ==> c0[i] == AIR
      ensures found ==> GoodDrop(c0, minY, a, e, r, newY, oldY, toMove) && oldY0 <= oldY
    {
      ghost var p := Packed(c0, a, r);
      found, newY, oldY, toMove := false, newY0, oldY0, AIR;
      newY := NextCell(x, newY, z, true, p);
      GapIs(c0, minY, a, r, newY0, oldY0, savY, newY);
      if newY >= dims.y {
        assert Packed(c0, a, r) == Packed(c0, a, e);
        return;
      }
      if oldY < newY { oldY := newY; }
      oldY := NextCell(x, oldY, z, false, p);
      AboveIs(c0, a, r, oldY);
      if oldY >= dims.y {
        PackedAir(c0, a, r, e);
        return;
      }
      toMove := Clamp(At(x, oldY, z));
      if !defs[toMove].fastFall {
        PackedAir(c0, a, r, e);
        return;
      }
      NextMove(c0, minY, a, r, newY0, oldY0, savY, newY, oldY);
      assert oldY < e;
      found := true;
    }

    /** The move itself, as one step of the whole column. */
    method MoveInColumn(x: int, z: int, to: int, from: int, toMove: Block, savY0: int, savB0: Block,
                        ghost minY: int, ghost c0: seq<Block>, ghost a: nat, ghost e: nat, ghost r: nat,
                        ghost newY0: int, ghost oldY0: int, ghost m0: seq<Block>, ghost h0: Moment<Update>,
                        ghost did0: seq<Doing>)
      returns (savY: int, savB: Block, ghost did: seq<Doing>)
      requires Valid() && 0 <= x < dims.x && 0 <= z < dims.z && |m0| == Volume(dims)
      requires Settling(x, z, minY, c0, a, e, r, newY0, oldY0, savY0, savB0, m0, h0)
      requires GoodDrop(c0, minY, a, e, r, to, from, toMove) && oldY0 <= from && a <= r
      requires Recounted(x, z, c0, a, r, savY0, savB0, m0, h0, did0)
      modifies blocks, queue
      ensures Valid() && savY == from
      ensures Settling(x, z, minY, c0, a, e, from + 1, to, from + 1, savY, savB, m0, h0)
      ensures Recounted(x, z, c0, a, from + 1, savY, savB, m0, h0, did)
    {
      hide Traced, Logged, Inv, Moves, LastSolid, MoveDoings, Solids;
      LastGapIsAir(x, z, c0, a, r, minY, newY0, oldY0, savY0);
      ghost var m := blocks[..];
      assert At(x, to, z) == Col(dims, m, x, z)[to] && At(x, from, z) == Col(dims, m, x, z)[from];
      ColumnMove(dims, m0, m, x, z, to, from, toMove);
      MovesOn(c0, a, r, from);
      savY, savB, did := MoveDown(x, to, from, z, toMove, savY0, savB0, m0, h0, did0);
    }

    /** One trip through the loop; `more` is false where the source breaks out of it. */
    method DropOne(x: int, z: int, newY: int, oldY: int, savY: int, savB: Block,
                   ghost minY: int, ghost c0: seq<Block>, ghost a: nat, ghost e: nat, ghost r: nat,
                   ghost m0: seq<Block>, ghost h0: Moment<Update>, ghost did0: seq<Doing>)
      returns (more: bool, to: int, from: int, savB': Block, ghost did: seq<Doing>)
      requires Valid() && 0 <= x < dims.x && 0 <= z < dims.z && |m0| == Volume(dims)
      requires Settling(x, z, minY, c0, a, e, r, newY, oldY, savY, savB, m0, h0)
      requires e == FirstFirm(falls, c0, a) && oldY < dims.y
      requires a <= r && Recounted(x, z, c0, a, r, savY, savB, m0, h0, did0)
      modifies blocks, queue
      ensures Valid()
      ensures !more ==> blocks[..] == old(blocks[..]) && queue.Now() == old(queue.Now())
                        && Packed(c0, a, r) == Packed(c0, a, e) && did == did0
                        && forall i :: r <= i < e ==> c0[i] == AIR
      ensures more ==> oldY <= from && Settling(x, z, minY, c0, a, e, from + 1, to, from + 1, from, savB', m0, h0)
                       && a <= from && Recounted(x, z, c0, a, from + 1, from, savB', m0, h0, did)
    {
      savB', did := savB, did0;
      var toMove;
      more, to, from, toMove := FindDrop(x, z, newY, oldY, minY, c0, a, e, r, savY);
      if more {
        var sav;
        sav, savB', did := MoveInColumn(x, z, to, from, toMove, savY, savB, minY, c0, a, e, r, newY, oldY, m0, h0,
                                        did0);
      }
    }

    /** The loop of `check_for_sand`, and the announcement that is then still due. */
    method DropAll(x: int, z: int, minY: int, ghost c0: seq<Block>, ghost a: nat, ghost e: nat,
                   ghost m0: seq<Block>, ghost h0: Moment<Update>)
      returns (ghost did: seq<Doing>)
      requires Valid() && 0 <= x < dims.x && 0 <= z < dims.z && |m0| == Volume(dims)
      requires Settling(x, z, minY, c0, a, e, a, minY, minY, -1, AIR, m0, h0)
      requires e == FirstFirm(falls, c0, a)
      requires Traced(dims, x, z, m0, h0.trace.hist, blocks[..], queue.trace.hist, [])
      modifies blocks, queue
      ensures Valid()
      ensures Col(dims, blocks[..], x, z) == Packed(c0, a, e)
      ensures SameElsewhere(dims, m0, blocks[..], x, z)
      ensures Logged(dims, m0, h0, blocks[..], queue.Now())
      ensures Traced(dims, x, z, m0, h0.trace.hist, blocks[..], queue.trace.hist, did)
      ensures did == Moves(c0, a, e) + Landed(LastSolid(c0, a, e))
    {
      hide Traced, Logged, Inv, Solids, Moves, LastSolid, Landed, SameElsewhere, Col, Packed;
      NothingMoved(c0, a);
      var savY, savB: Block, newY, oldY := -1, AIR, minY, minY;
      ghost var r: nat := a;
      did := [];
      while oldY < dims.y
        invariant Valid()
        // (compared with `true` so that it is not taken apart)
        invariant Settling(x, z, minY, c0, a, e, r, newY, oldY, savY, savB, m0, h0) == true
        invariant a <= r && Recounted(x, z, c0, a, r, savY, savB, m0, h0, did) == true
      {
        var more, to, from, sav;
        more, to, from, sav, did := DropOne(x, z, newY, oldY, savY, savB, minY, c0, a, e, r, m0, h0, did);
        if !more { break; }
        newY, oldY, savY, savB := to, from + 1, from, sav;
        r := from + 1;
      }
      AllDropped(x, z, minY, c0, a, e, r, newY, oldY, savY, savB, m0, h0);
      MovesSkip(c0, a, r, e);
      did := AnnounceLanded(x, savY, z, savB, m0, h0, did);
    }

    /** Where the loop ends, the stretch has settled. */
    lemma AllDropped(x: int, z: int, minY: int, c0: seq<Block>, a: nat, e: nat, r: nat,
                     newY: int, oldY: int, savY: int, savB: Block, m0: seq<Block>, h0: Moment<Update>)
      requires Valid() && 0 <= x < dims.x && 0 <= z < dims.z && |m0| == Volume(dims)
      requires Settling(x, z, minY, c0, a, e, r, newY, oldY, savY, savB, m0, h0)
      requires oldY >= dims.y || (Packed(c0, a, r) == Packed(c0, a, e) && forall i :: r <= i < e ==> c0[i] == AIR)
      ensures a <= r <= e && forall i :: r <= i < e ==> c0[i] == AIR
      ensures Col(dims, blocks[..], x, z) == Packed(c0, a, e)
      ensures SameElsewhere(dims, m0, blocks[..], x, z)
      ensures savY == -1 || (Inside(dims, x, savY, z) && At(x, savY, z) == AIR)
      ensures Logged(dims, m0, h0, Restored(blocks[..], x, savY, z, savB), queue.Now())
    {
      LastGapIsAir(x, z, c0, a, r, minY, newY, oldY, savY);
    }

    /** `check_for_sand`; `did` has its writes to cells and its entries in the queue, in order. */
    method CheckForSand(x: int, y: int, z: int) returns (ghost did: seq<Doing>)
      requires Valid()
      modifies blocks, queue
      ensures Valid()
      ensures Logged(dims, old(blocks[..]), old(queue.Now()), blocks[..], queue.Now())
      ensures !Inside(dims, x, y, z) ==> blocks[..] == old(blocks[..])
      ensures Inside(dims, x, y, z) ==>
                && Col(dims, blocks[..], x, z) == Settle(falls, Col(dims, old(blocks[..]), x, z), y)
                && SameElsewhere(dims, old(blocks[..]), blocks[..], x, z)
                && did == SandDoings(falls, Col(dims, old(blocks[..]), x, z), y)
                && Traced(dims, x, z, old(blocks[..]), old(queue.trace.hist), blocks[..], queue.trace.hist, did)
      ensures !Inside(dims, x, y, z) ==> did == [] && queue.Now() == old(queue.Now())
    {
      did := [];
      if !Inside(dims, x, y, z) {
        LoggedNothing(dims, blocks[..], queue.Now(), queue.Now());
        return;
      }
      ghost var m0, h0 := blocks[..], queue.Now();
      ghost var c0 := Col(dims, m0, x, z);
      var minY := FindFloor(x, y, z);
      ghost var (a, e) := Stretch(falls, c0, y);
      PackedNothing(c0, a);
      TracedNothing(dims, x, z, m0, h0.trace.hist);
      did := DropAll(x, z, minY, c0, a, e, m0, h0);
    }

    /** The cell that the last move left behind is still empty. */
    lemma LastGapIsAir(x: int, z: int, c0: seq<Block>, a: nat, r: nat, minY: int, newY: int, oldY: int, savY: int)
      requires Valid() && 0 <= x < dims.x && 0 <= z < dims.z && |c0| == dims.y && a <= r
      requires Progress(c0, minY, a, r, newY, oldY, savY)
      requires Col(dims, blocks[..], x, z) == Packed(c0, a, r)
      ensures savY == -1 || (0 <= savY < oldY && Inside(dims, x, savY, z) && At(x, savY, z) == AIR)
    {
      if r > a {
        SolidsFewer(c0, a, r);
        assert Packed(c0, a, r)[r - 1] == AIR;
        assert At(x, savY, z) == Col(dims, blocks[..], x, z)[savY];
      }
    }
  }
}
