/** What `check_for_sand` does to a column, in order: each write to a cell, each queued entry. */
module SandSteps {
  import opened World
  import opened FallingSand

  datatype Doing = Wrote(y: nat, b: Block) | Queued(y: nat, b: Block)

  /** The topmost block of the stretch so far; -1 if there is none. */
  function LastSolid(c0: seq<Block>, a: nat, r: nat): (s: int)
    requires a <= r <= |c0|
    ensures s == -1 || (a <= s < r && c0[s] != AIR)
    ensures forall i :: a <= i < r && s < i ==> c0[i] == AIR
    decreases r
  {
    if r == a then -1 else if c0[r - 1] != AIR then r - 1 else LastSolid(c0, a, r - 1)
  }

  /** A block `b` moves from `from` down to `to`.  The move before has left `sav` empty, where
      `savB` had been (-1 if there was none); that is only announced now, and not at all if it
      is where the block lands: then the cell is made to look as before, so that an equal block
      is not announced either. */
  function MoveDoings(to: nat, from: nat, b: Block, sav: int, savB: Block): seq<Doing> {
    (if sav == to then [Wrote(to, savB)] else Landed(sav))
    + (if sav == to && savB == b then [] else [Wrote(to, b), Queued(to, b)])
    + [Wrote(from, AIR)]
  }

  /** The last gap is announced in the end. */
  function Landed(sav: int): seq<Doing> {
    if sav >= 0 then [Queued(sav, AIR)] else []
  }

  function BlockAt(c0: seq<Block>, y: int): Block {
    if 0 <= y < |c0| then c0[y] else AIR
  }

  /** ... of all the moves of the blocks in `a..r`. */
  function Moves(c0: seq<Block>, a: nat, r: nat): seq<Doing>
    requires a <= r <= |c0|
    decreases r
  {
    if r == a then []
    else if c0[r - 1] == AIR then Moves(c0, a, r - 1)
    else
      var sav := LastSolid(c0, a, r - 1);
      Moves(c0, a, r - 1)
      + MoveDoings(a + |Solids(c0[a..r - 1])|, r - 1, Clamp(c0[r - 1]), sav, BlockAt(c0, sav))
  }

  /** The whole of `check_for_sand`, called at height `y`. */
  function SandDoings(falls: Falls, col: seq<Block>, y: nat): seq<Doing>
    requires y < |col|
  {
    var (a, e) := Stretch(falls, col, y);
    Moves(col, a, e) + Landed(LastSolid(col, a, e))
  }

  lemma NothingMoved(c0: seq<Block>, a: nat)
    requires a <= |c0|
    ensures Moves(c0, a, a) == [] && LastSolid(c0, a, a) == -1
  {
  }

  /** Air takes no part. */
  lemma {:induction false} MovesSkip(c0: seq<Block>, a: nat, r: nat, q: nat)
    requires a <= r <= q <= |c0| && forall i :: r <= i < q ==> c0[i] == AIR
    ensures Moves(c0, a, q) == Moves(c0, a, r) && LastSolid(c0, a, q) == LastSolid(c0, a, r)
    ensures |Solids(c0[a..q])| == |Solids(c0[a..r])|
    decreases q
  {
    if r < q {
      MovesSkip(c0, a, r, q - 1);
      SolidsSnoc(c0, a, q - 1);
    }
  }

  /** The next block to move is the next one that is no air. */
  lemma MovesOn(c0: seq<Block>, a: nat, r: nat, q: nat)
    requires a <= r <= q < |c0| && c0[q] != AIR && forall i :: r <= i < q ==> c0[i] == AIR
    ensures var sav := LastSolid(c0, a, r);
            Moves(c0, a, q + 1) == Moves(c0, a, r)
              + MoveDoings(a + |Solids(c0[a..r])|, q, Clamp(c0[q]), sav, BlockAt(c0, sav))
    ensures LastSolid(c0, a, q + 1) == q
  {
    hide Solids, MoveDoings, Clamp, BlockAt;
    MovesSkip(c0, a, r, q);
  }

  // ---- What the doings amount to ------------------------------------------------------------

  function Entries(x: nat, z: nat, did: seq<Doing>): seq<Update> {
    if did == [] then []
    else
      var (front, last) := (Entries(x, z, did[..|did| - 1]), did[|did| - 1]);
      if last.Queued? then front + [Update(x, last.y, z, last.b)] else front
  }

  function Written(d: Dims, m: seq<Block>, x: nat, z: nat, did: seq<Doing>): (r: seq<Block>)
    requires |m| == Volume(d)
    ensures |r| == |m|
  {
    if did == [] then m
    else
      var (front, last) := (Written(d, m, x, z, did[..|did| - 1]), did[|did| - 1]);
      if last.Wrote? && Inside(d, x, last.y, z) then front[Pack(d, x, last.y, z) := last.b] else front
  }

  /** `did` is what has been done since the map was `m0` and the history `h0`. */
  ghost predicate Traced(d: Dims, x: nat, z: nat, m0: seq<Block>, h0: seq<Update>, m: seq<Block>, h: seq<Update>,
                         did: seq<Doing>)
    requires |m0| == Volume(d)
  {
    m == Written(d, m0, x, z, did) && h == h0 + Entries(x, z, did)
  }

  lemma TracedNothing(d: Dims, x: nat, z: nat, m0: seq<Block>, h0: seq<Update>)
    requires |m0| == Volume(d)
    ensures Traced(d, x, z, m0, h0, m0, h0, [])
  {
  }

  lemma TracedWrite(d: Dims, x: nat, z: nat, m0: seq<Block>, h0: seq<Update>, m: seq<Block>, h: seq<Update>,
                    did: seq<Doing>, y: nat, b: Block)
    requires |m0| == |m| == Volume(d) && Inside(d, x, y, z) && Traced(d, x, z, m0, h0, m, h, did)
    ensures Traced(d, x, z, m0, h0, m[Pack(d, x, y, z) := b], h, did + [Wrote(y, b)])
  {
    assert (did + [Wrote(y, b)])[..|did|] == did;
  }

  lemma TracedEntry(d: Dims, x: nat, z: nat, m0: seq<Block>, h0: seq<Update>, m: seq<Block>, h: seq<Update>,
                    did: seq<Doing>, y: nat, b: Block)
    requires |m0| == Volume(d) && Traced(d, x, z, m0, h0, m, h, did)
    ensures Traced(d, x, z, m0, h0, m, h + [Update(x, y, z, b)], did + [Queued(y, b)])
  {
    assert (did + [Queued(y, b)])[..|did|] == did;
  }

  // ---- Which cells are left without an entry ------------------------------------------------

  function AsChanges(did: seq<Doing>): (r: seq<Change>)
    ensures |r| == |did|
  {
    seq(|did|, i requires 0 <= i < |did| => if did[i].Wrote? then Silent(did[i].y) else Settled(did[i].y))
  }

  /** The last thing done to the cell at `y` was a write. */
  predicate Left(did: seq<Doing>, y: nat) {
    Outstanding(AsChanges(did), y)
  }

  lemma LeftOne(did: seq<Doing>, last: Doing, y: nat)
    ensures Left(did + [last], y) <==> if last.y == y then last.Wrote? else Left(did, y)
  {
    hide Outstanding;
    var change := if last.Wrote? then Silent(last.y) else Settled(last.y);
    assert AsChanges(did + [last]) == AsChanges(did) + [change];
    OutstandingMore(AsChanges(did), change, y);
  }

  lemma LeftLanded(did: seq<Doing>, sav: int, y: nat)
    ensures Left(did + Landed(sav), y) <==> Left(did, y) && y != sav
  {
    hide Left;
    if sav >= 0 { LeftOne(did, Queued(sav, AIR), y); } else { assert did + [] == did; }
  }

  lemma LeftMove(did: seq<Doing>, to: nat, from: nat, b: Block, sav: int, savB: Block, y: nat)
    requires to != from
    ensures Left(did + MoveDoings(to, from, b, sav, savB), y)
       <==> if y == from then true
            else if y == to then sav == to && savB == b
            else Left(did, y) && y != sav
  {
    hide Left, Landed;
    var d1 := if sav == to then did + [Wrote(to, savB)] else did + Landed(sav);
    if sav == to { LeftOne(did, Wrote(to, savB), y); } else { LeftLanded(did, sav, y); }
    var d2 := if sav == to && savB == b then d1 else d1 + [Wrote(to, b)] + [Queued(to, b)];
    LeftOne(d1, Wrote(to, b), y);
    LeftOne(d1 + [Wrote(to, b)], Queued(to, b), y);
    LeftOne(d2, Wrote(from, AIR), y);
    assert did + MoveDoings(to, from, b, sav, savB) == d2 + [Wrote(from, AIR)];
  }

  /** The block at `y` falls by one, there being a single gap below it, and the next block
      that falls is one of the same kind, which takes its place. */
  ghost predicate Replaced(c0: seq<Block>, a: nat, r: nat, y: nat)
    requires a <= r <= |c0|
  {
    a < y < r && SolidUpTo(c0, a, y) && exists q: nat :: NextSolid(c0, y, r, q) && Clamp(c0[q]) == c0[y]
  }

  ghost predicate SolidUpTo(c0: seq<Block>, a: nat, y: nat) {
    y < |c0| && forall i :: a < i <= y ==> c0[i] != AIR
  }

  ghost predicate NextSolid(c0: seq<Block>, y: nat, r: nat, q: nat) {
    y < q < r <= |c0| && c0[q] != AIR && forall i :: y < i < q ==> c0[i] == AIR
  }

  lemma {:induction false} SolidCount(c0: seq<Block>, a: nat, y: nat)
    requires a <= y < |c0| && c0[a] == AIR
    ensures |Solids(c0[a..y + 1])| <= y - a
    ensures |Solids(c0[a..y + 1])| == y - a <==> SolidUpTo(c0, a, y)
  {
    SolidsSnoc(c0, a, y);
    if y > a {
      SolidCount(c0, a, y - 1);
    } else {
      assert c0[a..a] == [];
    }
  }

  /** A move into the cell that the move before has left: everything up to there was solid. */
  lemma LandsThere(c0: seq<Block>, a: nat, r: nat)
    requires a < r <= |c0| && c0[a] == AIR && LastSolid(c0, a, r) >= 0
    ensures LastSolid(c0, a, r) == a + |Solids(c0[a..r])| <==> SolidUpTo(c0, a, LastSolid(c0, a, r))
  {
    var s := LastSolid(c0, a, r);
    SolidsPlusAir(c0, a, s + 1, r);
    SolidCount(c0, a, s);
  }

  lemma {:induction false} MovesLeave(c0: seq<Block>, a: nat, r: nat, y: nat)
    requires a <= r <= |c0| && (a < r ==> c0[a] == AIR)
    ensures Left(Moves(c0, a, r), y) <==> y == LastSolid(c0, a, r) || Replaced(c0, a, r, y)
    decreases r
  {
    hide Left, MoveDoings;
    if r == a {
      assert !Left([], y) by { NothingLeft(y); }
    } else {
      MovesLeave(c0, a, r - 1, y);
      if c0[r - 1] != AIR {
        MoveLeaves(c0, a, r - 1, y);
      } else {
        assert Replaced(c0, a, r, y) <==> Replaced(c0, a, r - 1, y) by { ReplacedMore(c0, a, r - 1, y); }
      }
    }
  }

  lemma NothingLeft(y: nat)
    ensures !Left([], y)
  {
  }

  lemma ReplacedMore(c0: seq<Block>, a: nat, r: nat, y: nat)
    requires a <= r < |c0|
    ensures Replaced(c0, a, r + 1, y) <==>
            Replaced(c0, a, r, y)
            || (a < y < r && SolidUpTo(c0, a, y) && NextSolid(c0, y, r + 1, r) && Clamp(c0[r]) == c0[y])
  {
    hide SolidUpTo;
    forall q: nat | NextSolid(c0, y, r, q) ensures NextSolid(c0, y, r + 1, q) {}
    forall q: nat | NextSolid(c0, y, r + 1, q) ensures q == r || NextSolid(c0, y, r, q) {}
  }

  lemma {:induction false} SolidsGrow(c0: seq<Block>, a: nat, p: nat, r: nat)
    requires a <= p <= r <= |c0|
    ensures |Solids(c0[a..p])| <= |Solids(c0[a..r])|
    decreases r
  {
    if p < r {
      SolidsGrow(c0, a, p, r - 1);
      SolidsSnoc(c0, a, r - 1);
    }
  }

  /** No move into a cell can find it solid up to there, unless the cell was only just left. */
  lemma GapNotReplaced(c0: seq<Block>, a: nat, r: nat)
    requires a < r <= |c0| && c0[a] == AIR
    ensures !Replaced(c0, a, r, a + |Solids(c0[a..r])|)
  {
    hide Solids;
    var to := a + |Solids(c0[a..r])|;
    if Replaced(c0, a, r, to) {
      var q: nat :| NextSolid(c0, to, r, q);
      SolidCount(c0, a, to);
      SolidsGrow(c0, a, to + 1, q);
      SolidsSnoc(c0, a, q);
      SolidsGrow(c0, a, q + 1, r);
    }
  }

  /** The next block to fall can take the place of the last one that did, and of no other. */
  lemma OnlyLast(c0: seq<Block>, a: nat, r: nat, y: nat)
    requires a < r < |c0| && c0[r] != AIR
    ensures y == LastSolid(c0, a, r) ==> !Replaced(c0, a, r, y)
    ensures a < y < r && c0[y] != AIR ==> (NextSolid(c0, y, r + 1, r) <==> y == LastSolid(c0, a, r))
  {
  }

  lemma MoveLeaves(c0: seq<Block>, a: nat, r: nat, y: nat)
    requires a < r < |c0| && c0[a] == AIR && c0[r] != AIR
    requires Left(Moves(c0, a, r), y) <==> y == LastSolid(c0, a, r) || Replaced(c0, a, r, y)
    ensures Left(Moves(c0, a, r + 1), y) <==> y == LastSolid(c0, a, r + 1) || Replaced(c0, a, r + 1, y)
  {
    hide Left, MoveDoings, Solids, Moves, Replaced, LastSolid, NextSolid;
    var (to, s) := (a + |Solids(c0[a..r])|, LastSolid(c0, a, r));
    SolidsFewer(c0, a, r);
    MovesOn(c0, a, r, r);
    LeftMove(Moves(c0, a, r), to, r, Clamp(c0[r]), s, BlockAt(c0, s), y);
    ReplacedMore(c0, a, r, y);
    GapNotReplaced(c0, a, r);
    OnlyLast(c0, a, r, y);
    if s >= 0 { LandsThere(c0, a, r); }
  }

  /** The cells that `check_for_sand` writes and never names afterwards: each has been emptied
      and then filled again with a block of the kind it had.  Every other cell that it writes is
      named by an entry after its last write. */
  lemma NeverNamed(falls: Falls, col: seq<Block>, y0: nat, y: nat)
    requires y0 < |col|
    ensures var (a, e) := Stretch(falls, col, y0);
            Left(SandDoings(falls, col, y0), y) <==> Replaced(col, a, e, y)
  {
    hide Left, Moves;
    var (a, e) := Stretch(falls, col, y0);
    MovesLeave(col, a, e, y);
    LeftLanded(Moves(col, a, e), LastSolid(col, a, e), y);
  }
}
