/** Block numbers, map geometry, and what it means to replay a log of updates. */
module World {

  const BLOCKMAX: int := 1024
  const AIR: Block := 0
  const BEDROCK: Block := 7
  const CPELIMIT: int := 768

  /** A stored block number: 16 bits. */
  type Block = b: int | 0 <= b < 0x1_0000

  type Byte = b: int | 0 <= b < 256

  /** What C takes for the string at the start of a buffer. */
  function UpToNul(s: seq<Byte>): seq<Byte> {
    if s == [] || s[0] == 0 then [] else [s[0]] + UpToNul(s[1..])
  }

  /** Stored numbers beyond the table of definitions count as its last entry. */
  function Clamp(b: Block): (r: Block)
    ensures r < BLOCKMAX && (r == AIR <==> b == AIR) && (b < BLOCKMAX ==> r == b)
  {
    if b >= BLOCKMAX then BLOCKMAX - 1 else b
  }

  datatype Dims = Dims(x: nat, y: nat, z: nat)

  /** One change, as it travels through the queue. */
  datatype Update = Update(x: nat, y: nat, z: nat, b: Block)

  function Volume(d: Dims): nat {
    d.y * d.z * d.x
  }

  predicate Inside(d: Dims, x: int, y: int, z: int) {
    0 <= x < d.x && 0 <= y < d.y && 0 <= z < d.z
  }

  /** Index of a cell in the flat block array. */
  function Pack(d: Dims, x: int, y: int, z: int): (i: int)
    requires Inside(d, x, y, z)
    ensures 0 <= i < Volume(d)
  {
    PackInRange(d, x, y, z);
    (y * d.z + z) * d.x + x
  }

  lemma PackInRange(d: Dims, x: int, y: int, z: int)
    requires Inside(d, x, y, z)
    ensures 0 <= (y * d.z + z) * d.x + x < d.y * d.z * d.x
  {
    MulStep(y, d.y, d.z);
    MulStep(y * d.z + z, d.y * d.z, d.x);
    MulStep(-1, y, d.z);
    MulStep(-1, y * d.z + z, d.x);
  }

  lemma MulStep(a: int, b: int, n: nat)
    requires a < b
    ensures a * n + n <= b * n
  {
    assert (b - a - 1) * n >= 0;
    assert b * n == a * n + n + (b - a - 1) * n;
  }

  lemma DivideUniquely(q: int, r: int, q': int, r': int, n: int)
    requires 0 <= r < n && 0 <= r' < n && q * n + r == q' * n + r'
    ensures q == q' && r == r'
  {
    if q < q' { MulStep(q, q', n); }
    if q' < q { MulStep(q', q, n); }
  }

  /** Different cells have different indices. */
  lemma PackInjective(d: Dims, x: int, y: int, z: int, x': int, y': int, z': int)
    requires Inside(d, x, y, z) && Inside(d, x', y', z')
    requires Pack(d, x, y, z) == Pack(d, x', y', z')
    ensures x == x' && y == y' && z == z'
  {
    DivideUniquely(y * d.z + z, x, y' * d.z + z', x', d.x);
    DivideUniquely(y, z, y', z', d.z);
  }

  predicate Fits(d: Dims, u: Update) {
    Inside(d, u.x, u.y, u.z)
  }

  function Cell(d: Dims, u: Update): int
    requires Fits(d, u)
  {
    Pack(d, u.x, u.y, u.z)
  }

  ghost predicate AllFit(d: Dims, log: seq<Update>) {
    forall u <- log :: Fits(d, u)
  }

  /** The map after the updates of `log`, oldest first. */
  function Replay(d: Dims, m: seq<Block>, log: seq<Update>): (r: seq<Block>)
    requires |m| == Volume(d) && AllFit(d, log)
    ensures |r| == |m|
  {
    if log == [] then m
    else
      var last := log[|log| - 1];
      Replay(d, m, log[..|log| - 1])[Cell(d, last) := last.b]
  }

  lemma ReplayOne(d: Dims, m: seq<Block>, log: seq<Update>, u: Update)
    requires |m| == Volume(d) && AllFit(d, log) && Fits(d, u)
    ensures AllFit(d, log + [u])
    ensures Replay(d, m, log + [u]) == Replay(d, m, log)[Cell(d, u) := u.b]
  {
    assert (log + [u])[..|log|] == log;
  }

  lemma {:induction false} ReplayConcat(d: Dims, m: seq<Block>, a: seq<Update>, b: seq<Update>)
    requires |m| == Volume(d) && AllFit(d, a) && AllFit(d, b)
    ensures AllFit(d, a + b)
    ensures Replay(d, m, a + b) == Replay(d, Replay(d, m, a), b)
    decreases |b|
  {
    if b == [] {
      assert a + b == a;
    } else {
      var n := |b| - 1;
      ReplayConcat(d, m, a, b[..n]);
      assert a + b == (a + b[..n]) + [b[n]];
      ReplayOne(d, m, a + b[..n], b[n]);
    }
  }

  /** Some update of the log writes cell `i`. */
  ghost predicate Touches(d: Dims, log: seq<Update>, i: int)
    requires AllFit(d, log)
  {
    exists k :: 0 <= k < |log| && Cell(d, log[k]) == i
  }

  lemma TouchesMore(d: Dims, log: seq<Update>, u: Update)
    requires AllFit(d, log) && Fits(d, u)
    ensures AllFit(d, log + [u]) && Touches(d, log + [u], Cell(d, u))
    ensures forall i :: Touches(d, log, i) ==> Touches(d, log + [u], i)
    ensures forall i :: Touches(d, log + [u], i) && i != Cell(d, u) ==> Touches(d, log, i)
  {
    var more := log + [u];
    assert more[|log|] == u;
    forall i | Touches(d, log, i) ensures Touches(d, more, i) {
      var k :| 0 <= k < |log| && Cell(d, log[k]) == i;
      assert more[k] == log[k];
    }
    forall i | Touches(d, more, i) && i != Cell(d, u) ensures Touches(d, log, i) {
      var k :| 0 <= k < |more| && Cell(d, more[k]) == i;
      assert more[k] == log[k];
    }
  }

  /** A log repairs every cell it writes: two maps that agree on all the other cells
      end up equal. */
  lemma {:induction false} ReplayRepairs(d: Dims, m: seq<Block>, m': seq<Block>, log: seq<Update>)
    requires |m| == |m'| == Volume(d) && AllFit(d, log)
    requires forall i :: 0 <= i < |m| && !Touches(d, log, i) ==> m[i] == m'[i]
    ensures Replay(d, m, log) == Replay(d, m', log)
  {
    ReplayAgreesBy(d, m, m', log, |log|);
    assert log[..|log|] == log;
  }

  /** After the first `k` updates the maps agree wherever those updates or no update
      at all write. */
  lemma {:induction false} ReplayAgreesBy(d: Dims, m: seq<Block>, m': seq<Block>, log: seq<Update>, k: nat)
    requires |m| == |m'| == Volume(d) && AllFit(d, log) && k <= |log|
    requires forall i :: 0 <= i < |m| && !Touches(d, log, i) ==> m[i] == m'[i]
    ensures forall i :: 0 <= i < |m| && (Touches(d, log[..k], i) || !Touches(d, log, i))
              ==> Replay(d, m, log[..k])[i] == Replay(d, m', log[..k])[i]
  {
    if k > 0 {
      ReplayAgreesBy(d, m, m', log, k - 1);
      var before, u := log[..k - 1], log[k - 1];
      assert log[..k] == before + [u];
      ReplayOne(d, m, before, u);
      ReplayOne(d, m', before, u);
      TouchesMore(d, before, u);
    }
  }

  /** A cell that the log writes ends up the same whatever it held before. */
  lemma {:induction false} ReplayTouched(d: Dims, m: seq<Block>, m': seq<Block>, log: seq<Update>, i: int)
    requires |m| == |m'| == Volume(d) && AllFit(d, log) && 0 <= i < |m| && Touches(d, log, i)
    ensures Replay(d, m, log)[i] == Replay(d, m', log)[i]
    decreases |log|
  {
    var n := |log| - 1;
    if Cell(d, log[n]) != i {
      var k :| 0 <= k < |log| && Cell(d, log[k]) == i;
      assert log[..n][k] == log[k];
      ReplayTouched(d, m, m', log[..n], i);
    }
  }

  /** A cell that the log does not write keeps its value. */
  lemma {:induction false} ReplayLeaves(d: Dims, m: seq<Block>, log: seq<Update>, i: int)
    requires |m| == Volume(d) && AllFit(d, log) && 0 <= i < |m| && !Touches(d, log, i)
    ensures Replay(d, m, log)[i] == m[i]
    decreases |log|
  {
    if log != [] {
      var n := |log| - 1;
      assert Cell(d, log[n]) != i;
      forall k | 0 <= k < n ensures Cell(d, log[..n][k]) != i { assert log[..n][k] == log[k]; }
      ReplayLeaves(d, m, log[..n], i);
    }
  }

  // ---- Silent changes ---------------------------------------------------------------------

  /** What one step of a run does to a cell: it leaves it to hold what the queue has not said
      of it, or brings the two together. */
  datatype Change = Silent(cell: int) | Settled(cell: int) | Neither

  /** The last change of cell `i` was a silent one. */
  predicate Outstanding(changes: seq<Change>, i: int) {
    changes != []
    && var last := changes[|changes| - 1];
       if last == Silent(i) then true
       else if last == Settled(i) then false
       else Outstanding(changes[..|changes| - 1], i)
  }

  lemma OutstandingMore(changes: seq<Change>, last: Change, i: int)
    ensures Outstanding(changes + [last], i) <==> last == Silent(i) || (last != Settled(i) && Outstanding(changes, i))
  {
    assert (changes + [last])[..|changes|] == changes;
  }
}
