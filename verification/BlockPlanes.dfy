/** The four byte arrays a map is saved as, and what loading makes of them. */
module BlockPlanes {
  import opened World

  const CPE_START: int := 66
  const PHYSICS_OFFSET: int := CPELIMIT

  /** Block numbers that other servers treat as "physics" blocks. */
  predicate IsMcgPhysics(b: int) {
    b >= CPE_START && b > PHYSICS_OFFSET && b < PHYSICS_OFFSET + 255
  }

  /** A plane that was not needed is not in the file. */
  datatype Plane = Absent | Present(bytes: seq<Byte>)

  datatype Planes = Planes(blocks: seq<Byte>, high: Plane, high3: Plane, physics: Plane)

  /** What the first pass over the map has found to be necessary. */
  datatype Flags = Flags(ba2: bool, ba3: bool, ph: bool)

  const NoFlags := Flags(false, false, false)

  // ---- One cell ------------------------------------------------------------------

  /** The lowest plane; `fallback` is what a physics block looks like elsewhere. */
  function LowByte(b: Block, usePhysics: bool, fallback: seq<Byte>): Byte
    requires |fallback| == 256
  {
    if usePhysics && IsMcgPhysics(b) then fallback[b % 256] else b % 256
  }

  function HighByte(b: Block, usePhysics: bool): Byte {
    if (usePhysics && IsMcgPhysics(b)) || b >= CPELIMIT then 0 else b / 256
  }

  function High3Byte(b: Block, usePhysics: bool): Byte {
    if b >= CPELIMIT && !(usePhysics && IsMcgPhysics(b)) then b / 256 else 0
  }

  function PhysicsByte(b: Block): Byte {
    if IsMcgPhysics(b) then b % 256 else 0
  }

  function Noting(f: Flags, b: Block, usePhysics: bool): Flags {
    if usePhysics && IsMcgPhysics(b) then f.(ph := true)
    else if b >= CPELIMIT then f.(ba3 := true)
    else if b > 255 then f.(ba2 := true)
    else f
  }

  predicate NeedsHigh(b: Block) { 255 < b < CPELIMIT }

  predicate NeedsHigh3(b: Block, usePhysics: bool) { b >= CPELIMIT && !(usePhysics && IsMcgPhysics(b)) }

  predicate NeedsPhysics(b: Block, usePhysics: bool) { usePhysics && IsMcgPhysics(b) }

  /** The flags provide every plane that a cell holding `b` needs. */
  predicate Covers(f: Flags, b: Block, usePhysics: bool) {
    Noting(f, b, usePhysics) == f
  }

  /** The old low byte with a new high byte. */
  function WithHigh(b: Block, high: int): Block
    requires 0 <= high < 256
  {
    b % 256 + high * 256
  }

  /** What the loader leaves in a cell, given its bytes; -1 stands for no plane. */
  function LoadCell(low: Byte, high: int, high3: int, physics: int): (b: Block)
    requires -1 <= high < 256 && -1 <= high3 < 256 && -1 <= physics < 256
  {
    var b1: Block := low;
    var b2: Block := if high >= 0 then WithHigh(b1, high) else b1;
    var b3: Block := if high3 > 0 then WithHigh(b2, high3) else b2;
    if physics > 0 then physics + PHYSICS_OFFSET else b3
  }

  /** A cell survives the trip whenever the planes it needs are there.  Planes that
      are only there for the sake of other cells do no harm. */
  lemma CellRoundTrip(b: Block, usePhysics: bool, fallback: seq<Byte>, f: Flags)
    requires |fallback| == 256 && Covers(f, b, usePhysics) && (f.ph ==> usePhysics)
    ensures LoadCell(
              LowByte(b, usePhysics, fallback),
              if f.ba2 then HighByte(b, usePhysics) else -1,
              if f.ba3 then High3Byte(b, usePhysics) else -1,
              if f.ph then PhysicsByte(b) else -1) == b
  {
  }

  /** A plane is needed exactly for the blocks that are lost without it. */
  lemma PlaneNeeded(b: Block, usePhysics: bool, fallback: seq<Byte>)
    requires |fallback| == 256
    ensures var (low, high, high3) := (LowByte(b, usePhysics, fallback), HighByte(b, usePhysics),
                                       High3Byte(b, usePhysics));
            var physics := if usePhysics then PhysicsByte(b) else -1;
            && LoadCell(low, high, high3, physics) == b
            && (NeedsHigh(b) <==> LoadCell(low, -1, high3, physics) != b)
            && (NeedsHigh3(b, usePhysics) <==> LoadCell(low, high, -1, physics) != b)
            && (NeedsPhysics(b, usePhysics) <==> LoadCell(low, high, high3, -1) != b)
            && (Noting(NoFlags, b, usePhysics)
                == Flags(NeedsHigh(b), NeedsHigh3(b, usePhysics), NeedsPhysics(b, usePhysics)))
  {
  }

  /** Who takes the lowest plane alone sees the low byte of every block, but of a physics block
      its stand-in. */
  lemma LowestPlaneAlone(b: Block, usePhysics: bool, fallback: seq<Byte>)
    requires |fallback| == 256
    ensures LoadCell(LowByte(b, usePhysics, fallback), -1, -1, -1)
         == if usePhysics && 769 <= b <= 1022 then fallback[b - 768] else b % 256
  {
    assert b - 768 == b % 256 || b < 768 || b > 1023;
  }

  /** The bytes of a cell amount to `t` when each plane was copied at a moment of its own,
      at which the cell held `low`, `high`, `high3` and `physics`: a physics plane that says
      anything has the last word, then a high byte of the third plane. */
  predicate PiecedTogether(f: Flags, usePhysics: bool, fallback: seq<Byte>,
                           low: Block, high: Block, high3: Block, physics: Block, t: Block)
    requires |fallback| == 256
  {
    if f.ph && IsMcgPhysics(physics) then physics == t
    else
      && LowByte(low, usePhysics, fallback) == t % 256
      && t / 256 == (if f.ba3 && NeedsHigh3(high3, usePhysics) then high3 / 256
                     else if f.ba2 && (high < CPELIMIT) then high / 256
                     else 0)
  }

  lemma PiecesLoad(f: Flags, usePhysics: bool, fallback: seq<Byte>,
                   low: Block, high: Block, high3: Block, physics: Block, t: Block)
    requires |fallback| == 256
    ensures PiecedTogether(f, usePhysics, fallback, low, high, high3, physics, t) <==>
              LoadCell(LowByte(low, usePhysics, fallback),
                       if f.ba2 then HighByte(high, usePhysics) else -1,
                       if f.ba3 then High3Byte(high3, usePhysics) else -1,
                       if f.ph then PhysicsByte(physics) else -1) == t
  {
    hide LowByte;
    var l := LowByte(low, usePhysics, fallback);
    var h := if f.ba2 then HighByte(high, usePhysics) else -1;
    var h3 := if f.ba3 then High3Byte(high3, usePhysics) else -1;
    if !(f.ph && IsMcgPhysics(physics)) {
      assert h >= 0 ==> h == if high < CPELIMIT then high / 256 else 0;
      assert h3 > 0 <==> f.ba3 && NeedsHigh3(high3, usePhysics);
      LoadsBytes(l, h, h3, t);
    }
  }

  lemma LoadsBytes(low: Byte, high: int, high3: int, t: Block)
    requires -1 <= high < 256 && -1 <= high3 < 256
    ensures LoadCell(low, high, high3, -1) == LoadCell(low, high, high3, 0)
    ensures LoadCell(low, high, high3, -1) == t <==>
              low == t % 256 && t / 256 == if high3 > 0 then high3 else if high > 0 then high else 0
  {
  }

  // ---- Whole planes ----------------------------------------------------------------

  function At(p: Plane, i: int): int
    requires p.Present? ==> 0 <= i < |p.bytes|
  {
    if p.Present? then p.bytes[i] else -1
  }

  ghost predicate WellSized(p: Planes, n: nat) {
    && |p.blocks| == n
    && (p.high.Present? ==> |p.high.bytes| == n)
    && (p.high3.Present? ==> |p.high3.bytes| == n)
    && (p.physics.Present? ==> |p.physics.bytes| == n)
  }

  ghost function Load(p: Planes): (m: seq<Block>)
    requires WellSized(p, |p.blocks|)
    ensures |m| == |p.blocks|
  {
    seq(|p.blocks|, i requires 0 <= i < |p.blocks| =>
      LoadCell(p.blocks[i], At(p.high, i), At(p.high3, i), At(p.physics, i)))
  }

  /** The planes hold a faithful copy of cell `i` of a map. */
  ghost predicate HoldsCell(p: Planes, f: Flags, usePhysics: bool, fallback: seq<Byte>, i: int, b: Block)
    requires |fallback| == 256 && WellSized(p, |p.blocks|) && 0 <= i < |p.blocks|
  {
    && Covers(f, b, usePhysics)
    && p.blocks[i] == LowByte(b, usePhysics, fallback)
    && (p.high.Present? ==> p.high.bytes[i] == HighByte(b, usePhysics))
    && (p.high3.Present? ==> p.high3.bytes[i] == High3Byte(b, usePhysics))
    && (p.physics.Present? ==> p.physics.bytes[i] == PhysicsByte(b))
  }

  ghost function FlagsOf(p: Planes): Flags {
    Flags(p.high.Present?, p.high3.Present?, p.physics.Present?)
  }

  ghost predicate FlagsMatch(p: Planes, f: Flags) {
    p.high.Present? == f.ba2 && p.high3.Present? == f.ba3 && p.physics.Present? == f.ph
  }

  lemma HeldCellLoads(p: Planes, f: Flags, usePhysics: bool, fallback: seq<Byte>, i: int, b: Block)
    requires |fallback| == 256 && WellSized(p, |p.blocks|) && 0 <= i < |p.blocks|
    requires FlagsMatch(p, f) && (f.ph ==> usePhysics)
    requires HoldsCell(p, f, usePhysics, fallback, i, b)
    ensures Load(p)[i] == b
  {
    CellRoundTrip(b, usePhysics, fallback, f);
  }

  lemma HeldPlanesLoad(p: Planes, usePhysics: bool, fallback: seq<Byte>, m: seq<Block>)
    requires |fallback| == 256 && WellSized(p, |m|) && (p.physics.Present? ==> usePhysics)
    requires forall i :: 0 <= i < |m| ==> HoldsCell(p, FlagsOf(p), usePhysics, fallback, i, m[i])
    ensures Load(p) == m
  {
    hide HoldsCell;
    forall i | 0 <= i < |m| ensures Load(p)[i] == m[i] {
      HeldCellLoads(p, FlagsOf(p), usePhysics, fallback, i, m[i]);
    }
  }

  // ---- Saving and loading a map nobody is changing -----------------------------------

  /** The first pass writes the lowest plane and finds out which others are needed. */
  method FirstPass(level: array<Block>, usePhysics: bool, fallback: seq<Byte>) returns (blocks: seq<Byte>, f: Flags)
    requires |fallback| == 256
    ensures |blocks| == level.Length && (f.ph ==> usePhysics)
    ensures f.ba2 <==> exists i :: 0 <= i < level.Length && NeedsHigh(level[i])
    ensures f.ba3 <==> exists i :: 0 <= i < level.Length && NeedsHigh3(level[i], usePhysics)
    ensures f.ph <==> exists i :: 0 <= i < level.Length && NeedsPhysics(level[i], usePhysics)
    ensures forall j :: 0 <= j < level.Length ==>
              Covers(f, level[j], usePhysics) && blocks[j] == LowByte(level[j], usePhysics, fallback)
  {
    var n := level.Length;
    f, blocks := NoFlags, [];
    for i := 0 to n
      invariant |blocks| == i && (f.ph ==> usePhysics)
      invariant f.ba2 <==> exists j :: 0 <= j < i && NeedsHigh(level[j])
      invariant f.ba3 <==> exists j :: 0 <= j < i && NeedsHigh3(level[j], usePhysics)
      invariant f.ph <==> exists j :: 0 <= j < i && NeedsPhysics(level[j], usePhysics)
      invariant forall j :: 0 <= j < i ==>
                  Covers(f, level[j], usePhysics) && blocks[j] == LowByte(level[j], usePhysics, fallback)
    {
      var b := level[i];
      if usePhysics && IsMcgPhysics(b) {
        blocks := blocks + [fallback[b % 256]];
        f := f.(ph := true);
      } else {
        if b >= CPELIMIT {
          f := f.(ba3 := true);
          b := b % 256;
        }
        blocks := blocks + [b % 256];
        if b > 255 { f := f.(ba2 := true); }
      }
    }
  }

  /** The block array part of `save_map_to_file`: one pass per plane. */
  method SavePlanes(level: array<Block>, usePhysics: bool, fallback: seq<Byte>) returns (p: Planes)
    requires |fallback| == 256
    ensures WellSized(p, level.Length)
    ensures p.high.Present? <==> exists i :: 0 <= i < level.Length && NeedsHigh(level[i])
    ensures p.high3.Present? <==> exists i :: 0 <= i < level.Length && NeedsHigh3(level[i], usePhysics)
    ensures p.physics.Present? <==> exists i :: 0 <= i < level.Length && NeedsPhysics(level[i], usePhysics)
    ensures forall i :: 0 <= i < level.Length ==> HoldsCell(p, FlagsOf(p), usePhysics, fallback, i, level[i])
    ensures Load(p) == level[..]
  {
    hide Load, LowByte, Covers;
    var n := level.Length;
    var blocks, f := FirstPass(level, usePhysics, fallback);
    p := Planes(blocks, Absent, Absent, Absent);

    if f.ba2 {
      var bytes: seq<Byte> := [];
      for i := 0 to n
        invariant |bytes| == i && forall j :: 0 <= j < i ==> bytes[j] == HighByte(level[j], usePhysics)
      {
        var b := level[i];
        if (usePhysics && IsMcgPhysics(b)) || b >= CPELIMIT {
          bytes := bytes + [0];
        } else {
          bytes := bytes + [b / 256];
        }
      }
      p := p.(high := Present(bytes));
    }

    if f.ba3 {
      var bytes: seq<Byte> := [];
      for i := 0 to n
        invariant |bytes| == i && forall j :: 0 <= j < i ==> bytes[j] == High3Byte(level[j], usePhysics)
      {
        var b := level[i];
        if b >= CPELIMIT && !(usePhysics && IsMcgPhysics(b)) {
          bytes := bytes + [b / 256];
        } else {
          bytes := bytes + [0];
        }
      }
      p := p.(high3 := Present(bytes));
    }

    if f.ph {
      var bytes: seq<Byte> := [];
      for i := 0 to n
        invariant |bytes| == i && forall j :: 0 <= j < i ==> bytes[j] == PhysicsByte(level[j])
      {
        var b := level[i];
        if IsMcgPhysics(b) { bytes := bytes + [b % 256]; } else { bytes := bytes + [0]; }
      }
      p := p.(physics := Present(bytes));
    }

    assert f == FlagsOf(p);
    HeldPlanesLoad(p, usePhysics, fallback, level[..]);
  }

  /** What one later plane makes of the map so far; a plane shorter than the map leaves
      the rest of it alone, and a longer one is cut short. */
  ghost predicate Overlaid(was: seq<Block>, now: seq<Block>, bytes: seq<Byte>, cell: (Block, Byte) -> Block) {
    && |now| == |was|
    && forall j :: 0 <= j < |was| ==> now[j] == if j < |bytes| then cell(was[j], bytes[j]) else was[j]
  }

  function HighCell(b: Block, ch: Byte): Block { WithHigh(b, ch) }

  function High3Cell(b: Block, ch: Byte): Block { if ch != 0 then WithHigh(b, ch) else b }

  function PhysicsCell(b: Block, ch: Byte): Block { if ch != 0 then ch + PHYSICS_OFFSET else b }

  /** `read_blockarray` */
  method ReadBlockArray(bytes: seq<Byte>, level: array<Block>)
    modifies level
    ensures Overlaid(old(level[..]), level[..], bytes, (b, ch) => ch)
  {
    for i := 0 to Shorter(|bytes|, level.Length)
      invariant forall j :: 0 <= j < i ==> level[j] == bytes[j]
      invariant forall j :: i <= j < level.Length ==> level[j] == old(level[..])[j]
    {
      level[i] := bytes[i];
    }
  }

  /** `read_blockarray2` */
  method ReadBlockArray2(bytes: seq<Byte>, level: array<Block>)
    modifies level
    ensures Overlaid(old(level[..]), level[..], bytes, HighCell)
  {
    for i := 0 to Shorter(|bytes|, level.Length)
      invariant forall j :: 0 <= j < i ==> level[j] == HighCell(old(level[..])[j], bytes[j])
      invariant forall j :: i <= j < level.Length ==> level[j] == old(level[..])[j]
    {
      level[i] := WithHigh(level[i], bytes[i]);
    }
  }

  /** `read_blockarray3` */
  method ReadBlockArray3(bytes: seq<Byte>, level: array<Block>)
    modifies level
    ensures Overlaid(old(level[..]), level[..], bytes, High3Cell)
  {
    for i := 0 to Shorter(|bytes|, level.Length)
      invariant forall j :: 0 <= j < i ==> level[j] == High3Cell(old(level[..])[j], bytes[j])
      invariant forall j :: i <= j < level.Length ==> level[j] == old(level[..])[j]
    {
      var ch := bytes[i];
      if ch != 0 { level[i] := WithHigh(level[i], ch); }
    }
  }

  /** `read_blockarray_physics` */
  method ReadBlockArrayPhysics(bytes: seq<Byte>, level: array<Block>)
    modifies level
    ensures Overlaid(old(level[..]), level[..], bytes, PhysicsCell)
  {
    for i := 0 to Shorter(|bytes|, level.Length)
      invariant forall j :: 0 <= j < i ==> level[j] == PhysicsCell(old(level[..])[j], bytes[j])
      invariant forall j :: i <= j < level.Length ==> level[j] == old(level[..])[j]
    {
      var ch := bytes[i];
      if ch != 0 { level[i] := ch + PHYSICS_OFFSET; }
    }
  }

  /** The four planes, in file order. */
  method LoadPlanes(p: Planes, level: array<Block>)
    modifies level
    ensures WellSized(p, level.Length) ==> level[..] == Load(p)
  {
    ReadBlockArray(p.blocks, level);
    if p.high.Present? { ReadBlockArray2(p.high.bytes, level); }
    if p.high3.Present? { ReadBlockArray3(p.high3.bytes, level); }
    if p.physics.Present? { ReadBlockArrayPhysics(p.physics.bytes, level); }
  }

  function Shorter(a: nat, b: nat): nat {
    if a < b then a else b
  }
}
