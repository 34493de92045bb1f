/** `send_block_array`: the bytes of a map as one client is to see it, in one part or two. */
module MapTransfer {
  import opened World
  import opened BlockConvert
  import opened LiveClient

  const BUFFER: nat := 65536

  /** A session's view of the map, for the client it serves. */
  function ConfigFor(d: Dims, c: Client): Config
    requires Complete(c)
  {
    Config(d, b => Convert(c, b), c.extendedBlocks)
  }

  /** The block, converted for the client, that a cell stands for. */
  function Seen(c: Client, m: seq<Block>, i: int): Block
    requires Complete(c) && 0 <= i < |m|
  {
    Convert(c, m[i])
  }

  /** Part 0 has the low bytes, part 1 the high ones. */
  function PartByte(b: Block, part: int): Byte {
    if part == 0 then b % 256 else HighPart(b)
  }

  function Low8(n: nat): Byte { n % 256 }

  /** Older clients are told the length first. */
  function Header(n: nat, fastMap: bool): (h: seq<Byte>)
    ensures |h| == if fastMap then 0 else 4
  {
    if fastMap then []
    else [Low8(n / 0x100_0000), Low8(n / 0x1_0000), Low8(n / 0x100), Low8(n)]
  }

  /** What a client reads from a part that it takes to be of a map of `n` cells. */
  function PartBytes(part: seq<Byte>, fastMap: bool): seq<Byte>
    requires !fastMap ==> |part| >= 4
  {
    if fastMap then part else part[4..]
  }

  function Announced(part: seq<Byte>): int
    requires |part| >= 4
  {
    ((part[0] as int * 256 + part[1] as int) * 256 + part[2] as int) * 256 + part[3] as int
  }

  ghost predicate AnyWide(c: Client, m: seq<Block>)
    requires Complete(c)
  {
    exists i :: 0 <= i < |m| && Seen(c, m, i) > 255
  }

  /** The conversions are worked out once for all blocks that have a definition. */
  method ConversionTable(c: Client) returns (table: seq<Block>)
    requires Complete(c)
    ensures |table| == BLOCKMAX && forall b :: 0 <= b < BLOCKMAX ==> table[b] == Convert(c, b)
  {
    table := [];
    for b := 0 to BLOCKMAX
      invariant |table| == b && forall k :: 0 <= k < b ==> table[k] == Convert(c, k)
    {
      var r: Block := b;
      if !(b < c.levelLimit) { r := FBlockConvert(c, b); }
      table := table + [r];
    }
  }

  /** One part of the transfer, a buffer at a time; `wide` grows if a block needs more than
      one byte. */
  method SendPart(c: Client, level: array<Block>, table: seq<Block>, part: int, start: seq<Byte>)
    returns (sent: seq<Byte>, wide: bool)
    requires Complete(c) && 0 <= part <= 1
    requires |table| == BLOCKMAX && forall b :: 0 <= b < BLOCKMAX ==> table[b] == Convert(c, b)
    ensures |sent| == |start| + level.Length && sent[..|start|] == start
    ensures forall i :: 0 <= i < level.Length ==> sent[|start| + i] == PartByte(Seen(c, level[..], i), part)
    ensures wide <==> AnyWide(c, level[..])
  {
    hide Convert;
    sent, wide := start, false;
    var used := 0;
    while used < level.Length
      invariant 0 <= used <= level.Length && |sent| == |start| + used && sent[..|start|] == start
      invariant forall i :: 0 <= i < used ==> sent[|start| + i] == PartByte(Seen(c, level[..], i), part)
      invariant wide <==> exists i :: 0 <= i < used && Seen(c, level[..], i) > 255
    {
      var buffer: seq<Byte> := [];
      var i := 0;
      ghost var from := used;
      while i < BUFFER && used < level.Length
        invariant 0 <= i == |buffer| && from + i == used <= level.Length
        invariant i < BUFFER ==> from < level.Length
        invariant used == from ==> i == 0
        invariant forall k :: 0 <= k < i ==> buffer[k] == PartByte(Seen(c, level[..], from + k), part)
        invariant wide <==> exists k :: 0 <= k < used && Seen(c, level[..], k) > 255
        decreases level.Length - used
      {
        var b: Block := level[used];
        if b < BLOCKMAX { b := table[b]; } else if !(b < c.levelLimit) { b := FBlockConvert(c, b); }
        assert b == Seen(c, level[..], used) by { if level[used] < c.levelLimit { ConvertLow(c, level[used]); } }
        if b > 255 { wide := true; }
        if part == 0 { buffer := buffer + [b % 256]; }
        else if b < 768 { buffer := buffer + [b / 256]; }
        else { buffer := buffer + [0]; }
        used, i := used + 1, i + 1;
      }
      sent := sent + buffer;
    }
  }

  lemma ConvertLow(c: Client, b: Block)
    requires Complete(c) && b < c.levelLimit
    ensures Convert(c, b) == b
  {
  }

  predicate AreParts(parts: seq<seq<Byte>>, fastMap: bool) {
    1 <= |parts| <= 2 && forall k :: 0 <= k < |parts| && !fastMap ==> |parts[k]| >= 4
  }

  /** A client that takes the parts for what they are. */
  function Assembled(parts: seq<seq<Byte>>, fastMap: bool): seq<Block>
    requires AreParts(parts, fastMap)
  {
    Assemble(PartBytes(parts[0], fastMap), if |parts| == 1 then [] else PartBytes(parts[1], fastMap))
  }

  /** While nobody edits, the client ends up with the shared map as converted for it; the
      second part is sent exactly if it is needed and understood. */
  method SendBlockArray(d: Dims, c: Client, level: array<Block>, fastMap: bool) returns (parts: seq<seq<Byte>>)
    requires Complete(c) && LimitsFit(c) && level.Length < 0x1_0000_0000
    ensures AreParts(parts, fastMap)
    ensures |parts| == 2 <==> AnyWide(c, level[..]) && c.extendedBlocks
    ensures forall k :: 0 <= k < |parts| && !fastMap ==> |parts[k]| >= 4 && Announced(parts[k]) == level.Length
    ensures Assembled(parts, fastMap) == ShownMap(ConfigFor(d, c), level[..])
  {
    hide Convert;
    var table := ConversionTable(c);
    var start := Header(level.Length, fastMap);
    var low, needHigh := SendPart(c, level, table, 0, start);
    parts := [low];
    if needHigh && c.extendedBlocks {
      var high, _ := SendPart(c, level, table, 1, start);
      parts := parts + [high];
    }
    forall k | 0 <= k < |parts| && !fastMap ensures |parts[k]| >= 4 && Announced(parts[k]) == level.Length {
      HeaderTold(level.Length, parts[k]);
    }
    ghost var seen := ShownMap(ConfigFor(d, c), level[..]);
    forall i | 0 <= i < level.Length ensures Assembled(parts, fastMap)[i] == seen[i] {
      CellAssembled(d, c, level[..], parts, fastMap, i);
    }
  }

  lemma HeaderTold(n: nat, part: seq<Byte>)
    requires n < 0x1_0000_0000 && |part| >= 4 && part[..4] == Header(n, false)
    ensures Announced(part) == n
  {
    assert part[0] == part[..4][0] && part[1] == part[..4][1] && part[2] == part[..4][2] && part[3] == part[..4][3];
    assert n / 0x1_0000 == n / 0x100_0000 * 256 + n / 0x1_0000 % 256;
    assert n / 0x100 == n / 0x1_0000 * 256 + n / 0x100 % 256;
  }

  lemma CellAssembled(d: Dims, c: Client, m: seq<Block>, parts: seq<seq<Byte>>, fastMap: bool, i: nat)
    requires Complete(c) && LimitsFit(c) && i < |m| && 1 <= |parts| <= 2
    requires forall k :: 0 <= k < |parts| ==> |parts[k]| == |Header(|m|, fastMap)| + |m|
    requires forall k :: 0 <= k < |parts| ==> parts[k][|Header(|m|, fastMap)| + i] == PartByte(Seen(c, m, i), k)
    requires |parts| == 2 <==> AnyWide(c, m) && c.extendedBlocks
    ensures AreParts(parts, fastMap)
    ensures i < |Assembled(parts, fastMap)| && Assembled(parts, fastMap)[i] == Shown(ConfigFor(d, c), m[i])
  {
    hide Convert;
    ConvertFits(c, m[i]);
    assert Seen(c, m, i) > 255 ==> AnyWide(c, m);
  }
}
