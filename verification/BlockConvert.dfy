/** Translating map block numbers into ones a given client understands. */
module BlockConvert {
  import opened World

  const CP_START: int := 50
  const CPE_START: int := 66
  const SPONGE: int := 19
  const OBSIDIAN: int := 49

  datatype Definition = Definition(defined: bool, fallback: Block)

  /** What the client has negotiated, and the level's block definitions. */
  datatype Client = Client(
    levelLimit: Block, clientLimit: Block,
    classicLimit: bool, blockDefinitions: bool, extendedTextures: bool, customBlocks: bool,
    extendedBlocks: bool,
    definitions: seq<Definition>, wideTexture: seq<bool>)

  /** There is a definition for every block number that can be looked up. */
  predicate Complete(c: Client) {
    |c.definitions| == BLOCKMAX && |c.wideTexture| == BLOCKMAX
  }

  /** The limits that go with the negotiated width of a block number. */
  predicate LimitsFit(c: Client) {
    var top := if c.extendedBlocks then CPELIMIT else 256;
    c.levelLimit <= top && BEDROCK < c.clientLimit <= top
  }

  /** `cpe_conversion` */
  function CpeConversion(b: Block): (r: Block)
    requires CP_START <= b < CPE_START
    ensures r < CP_START
  {
    var table: seq<Block> := [
      0x2C, 0x27, 0x0C, 0x00, 0x0A, 0x21, 0x19, 0x03,
      0x1d, 0x1c, 0x14, 0x2a, 0x31, 0x24, 0x05, 0x01];
    table[b - CP_START]
  }

  /** `proto_conversion`: older protocols know fewer blocks. */
  function ProtoConversion(b: Block): (r: Block)
    requires SPONGE <= b <= OBSIDIAN
    ensures r <= 35
  {
    if b == 19 then 14
    else if b == 20 then 18
    else if b <= 36 then 1
    else if b <= 40 then 6
    else if b == 41 then 19
    else if b == 42 then 1
    else if b <= 44 then 35
    else if b <= 46 then 21
    else if b == 47 then 5
    else if b == 48 then 4
    else 34
  }

  /** 0: keep the block; 1: use its fallback; 2: only for its texture. */
  function FallbackReason(c: Client, b: Block): int
    requires Complete(c) && b < BLOCKMAX
  {
    if c.classicLimit && b >= CP_START then 1
    else if b >= c.clientLimit then 1
    else if !c.blockDefinitions then 1
    else if !c.extendedTextures && c.wideTexture[b] then 2
    else 0
  }

  /** The chain of fallbacks, at most four of them. */
  function FollowFallbacks(c: Client, b: Block, tries: nat): (r: Block)
    requires Complete(c) && b < BLOCKMAX && tries <= 4
    ensures r < BLOCKMAX
    decreases 4 - tries
  {
    if tries == 4 || !c.definitions[b].defined then b
    else
      var reason := FallbackReason(c, b);
      if reason == 0 then b
      else
        var r := c.definitions[b].fallback;
        if r == b || r >= BLOCKMAX then (if b >= CPE_START then BEDROCK else b)
        else if r < c.clientLimit && reason < 2 && !c.classicLimit then r
        else FollowFallbacks(c, r, tries + 1)
  }

  function OlderProtocols(c: Client, b: Block, tries: nat): Block
    decreases tries
  {
    if b < c.clientLimit then b
    else if tries == 0 then BEDROCK
    else OlderProtocols(c, if SPONGE <= b <= OBSIDIAN then ProtoConversion(b) else b, tries - 1)
  }

  function Convert(c: Client, b: Block): Block
    requires Complete(c)
  {
    if b < c.levelLimit then b
    else if b >= BLOCKMAX then BEDROCK
    else
      var b1 := FollowFallbacks(c, b, 0);
      var b2 := if c.classicLimit && CP_START <= b1 < CPE_START then CpeConversion(b1) else b1;
      var b3 :=
        if !c.customBlocks && CP_START <= b2 < CPE_START
           && (!c.blockDefinitions || !c.definitions[b2].defined) then CpeConversion(b2)
        else b2;
      OlderProtocols(c, b3, 2)
  }

  /** The fallback loop of `f_block_convert`. */
  method ChaseFallbacks(c: Client, b: Block) returns (r: Block)
    requires Complete(c) && b < BLOCKMAX
    ensures r == FollowFallbacks(c, b, 0) && r < BLOCKMAX
  {
    r := b;
    if c.definitions[r].defined {
      var tries := 0;
      var more := true;
      while more
        invariant r < BLOCKMAX && 0 <= tries <= 4
        invariant more ==> tries < 4 && c.definitions[r].defined
        invariant FollowFallbacks(c, b, 0) == if more then FollowFallbacks(c, r, tries) else r
        decreases 4 - tries, more
      {
        var fallback := 0;
        if c.classicLimit && r >= CP_START { fallback := 1; }
        else if r >= c.clientLimit { fallback := 1; }
        else if !c.blockDefinitions { fallback := 1; }
        else if !c.extendedTextures && c.wideTexture[r] { fallback := 2; }
        if fallback == 0 { break; }
        var f := c.definitions[r].fallback;
        if f == r || f >= BLOCKMAX {
          if r >= CPE_START { r := BEDROCK; }
          break;
        }
        r := f;
        if r < c.clientLimit && fallback < 2 && !c.classicLimit { break; }
        tries := tries + 1;
        more := tries < 4 && c.definitions[r].defined;
      }
    }
  }

  /** `f_block_convert`, as the source writes it. */
  method FBlockConvert(c: Client, b: Block) returns (r: Block)
    requires Complete(c)
    ensures r == Convert(c, b)
  {
    r := b;
    if r < c.levelLimit { return; }
    if r >= BLOCKMAX { return BEDROCK; }
    r := ChaseFallbacks(c, r);
    if c.classicLimit && CP_START <= r < CPE_START { r := CpeConversion(r); }
    if !c.customBlocks && CP_START <= r < CPE_START {
      if !c.blockDefinitions || !c.definitions[r].defined { r := CpeConversion(r); }
    }
    if r < c.clientLimit { return; }
    if SPONGE <= r <= OBSIDIAN { r := ProtoConversion(r); }
    if r < c.clientLimit { return; }
    if SPONGE <= r <= OBSIDIAN { r := ProtoConversion(r); }
    if r < c.clientLimit { return; }
    r := BEDROCK;
  }

  /** Whatever the definitions say, and even if they form a cycle, the client is only
      ever sent a block number that it knows and that fits the negotiated width. */
  lemma ConvertFits(c: Client, b: Block)
    requires Complete(c) && LimitsFit(c)
    ensures Convert(c, b) < c.levelLimit || Convert(c, b) < c.clientLimit
    ensures Convert(c, b) < (if c.extendedBlocks then CPELIMIT else 256)
  {
    if b >= c.levelLimit && b < BLOCKMAX {
      var b1 := FollowFallbacks(c, b, 0);
      assert forall x: Block :: OlderProtocols(c, x, 0) < c.clientLimit;
      assert forall x: Block :: OlderProtocols(c, x, 1) < c.clientLimit;
      assert forall x: Block :: OlderProtocols(c, x, 2) < c.clientLimit;
    }
  }

  // ---- What a client is sent, case by case -----------------------------------------------

  /** A block with a number below the limit of the level is sent as itself, and so is one that
      the client knows, if nothing speaks against it. */
  lemma SentAsItself(c: Client, b: Block)
    requires Complete(c)
    ensures b < c.levelLimit ==> Convert(c, b) == b
    ensures b < c.clientLimit && b < BLOCKMAX && !c.classicLimit
            && (!c.definitions[b].defined || (c.blockDefinitions && (c.extendedTextures || !c.wideTexture[b])))
            && (c.customBlocks || b < 50 || b > 65 || (c.blockDefinitions && c.definitions[b].defined)) ==>
              Convert(c, b) == b
  {
  }

  /** A path from a defined block that the client does not know along the fallbacks of further
      ones to the first that it knows. */
  ghost predicate LeadsTo(c: Client, path: seq<Block>)
    requires Complete(c)
  {
    && 2 <= |path|
    && (forall i :: 0 <= i < |path| ==> path[i] < BLOCKMAX)
    && (forall i :: 0 <= i < |path| - 1 ==>
          && c.definitions[path[i]].defined && path[i] >= c.clientLimit
          && path[i + 1] == c.definitions[path[i]].fallback && path[i + 1] != path[i])
    && path[|path| - 1] < c.clientLimit
  }

  lemma {:induction false} FollowsPath(c: Client, path: seq<Block>, tries: nat)
    requires Complete(c) && LeadsTo(c, path) && !c.classicLimit && tries + |path| - 1 <= 4
    ensures FollowFallbacks(c, path[0], tries) == path[|path| - 1]
    decreases |path|
  {
    assert path[1] < BLOCKMAX && c.definitions[path[0]].defined;
    if |path| > 2 {
      assert path[1] >= c.clientLimit;
      FollowsPath(c, path[1..], tries + 1);
    }
  }

  /** In place of a custom block the client is sent the first block it knows among its
      fallbacks, as long as it is no more than four of them away. */
  lemma FirstKnownFallback(c: Client, path: seq<Block>)
    requires Complete(c) && LeadsTo(c, path) && |path| <= 5 && path[0] >= c.levelLimit && !c.classicLimit
    requires c.customBlocks || path[|path| - 1] < 50 || path[|path| - 1] > 65
    ensures Convert(c, path[0]) == path[|path| - 1]
  {
    FollowsPath(c, path, 0);
  }

  /** The fourth fallback is the last that is tried. */
  lemma FourFallbacks(c: Client, path: seq<Block>)
    requires Complete(c) && |path| == 5 && path[0] >= c.levelLimit && !c.classicLimit
    requires forall i :: 0 <= i < 5 ==> c.clientLimit <= path[i] < BLOCKMAX
    requires forall i :: 0 <= i < 4 ==>
               && c.definitions[path[i]].defined
               && path[i + 1] == c.definitions[path[i]].fallback && path[i + 1] != path[i]
    requires path[4] >= 66
    ensures Convert(c, path[0]) == 7
  {
    assert path[4] >= c.clientLimit && path[3] >= c.clientLimit && path[2] >= c.clientLimit && path[1] >= c.clientLimit;
    assert FollowFallbacks(c, path[3], 3) == FollowFallbacks(c, path[4], 4) == path[4];
    assert FollowFallbacks(c, path[1], 1) == FollowFallbacks(c, path[2], 2) == path[4];
  }

  /** A client limited to the classic blocks is sent the fallback, too, even for a block that it
      knows; and so is one that knows the block but not its texture. */
  lemma FallbackInstead(c: Client, b: Block)
    requires Complete(c) && c.levelLimit <= b < BLOCKMAX && c.definitions[b].defined
    requires c.definitions[b].fallback != b && c.definitions[b].fallback < c.clientLimit
    requires c.definitions[b].fallback < 50 && !c.definitions[c.definitions[b].fallback].defined
    requires (c.classicLimit && b >= 50) || (c.wideTexture[b] && !c.extendedTextures) || b >= c.clientLimit
             || !c.blockDefinitions
    ensures Convert(c, b) == c.definitions[b].fallback
  {
    assert c.definitions[b].fallback < BLOCKMAX;
  }

  /** There is always bedrock. */
  lemma BedrockElse(c: Client, b: Block)
    requires Complete(c) && b >= c.levelLimit && b >= c.clientLimit
    ensures b >= 1024 ==> Convert(c, b) == 7
    ensures 66 <= b < 1024 && !c.definitions[b].defined ==> Convert(c, b) == 7
    ensures 66 <= b < 1024 && c.definitions[b].fallback == b && c.clientLimit > 7 ==> Convert(c, b) == 7
  {
  }

  /** The sixteen blocks of the CustomBlocks extension, for a client without it. */
  lemma WithoutCustomBlocks(c: Client, b: Block)
    requires Complete(c) && c.levelLimit <= b && 50 <= b <= 65 && !c.definitions[b].defined
    requires c.clientLimit >= 50 && (!c.customBlocks || c.classicLimit)
    ensures Convert(c, b) == [44, 39, 12, 0, 10, 33, 25, 3, 29, 28, 20, 42, 49, 36, 5, 1][b - 50]
  {
  }

  const OLDER: seq<Block> := [
    14, 18,                                                                  // from 19
    1, 1, 1, 1, 1, 1, 1, 1, 1, 1, 1, 1, 1, 1, 1, 1, 6, 6, 6, 6, 19,          // from 21
    1, 35, 35, 21, 21, 5, 4, 34]                                             // from 42

  /** Clients of older protocols know fewer blocks, and are sent others for the rest, once or
      twice removed. */
  lemma ForOlderProtocols(c: Client, b: Block)
    requires Complete(c) && 19 <= b <= 49 && b >= c.levelLimit && b >= c.clientLimit && !c.definitions[b].defined
    ensures var b1 := OLDER[b - 19];
            && (b1 < c.clientLimit ==> Convert(c, b) == b1)
            && (19 <= b1 && b1 >= c.clientLimit ==>
                  Convert(c, b) == if OLDER[b1 - 19] < c.clientLimit then OLDER[b1 - 19] else 7)
            && (19 > b1 >= c.clientLimit ==> Convert(c, b) == 7)
  {
    TableIs(b);
    if 19 <= OLDER[b - 19] { TableIs(OLDER[b - 19]); }
    assert CP_START > b;
  }

  lemma TableIs(b: Block)
    requires 19 <= b <= 49
    ensures ProtoConversion(b) == OLDER[b - 19] && OLDER[b - 19] <= 35
  {
  }
}
