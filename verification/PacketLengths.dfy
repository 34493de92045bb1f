/** The table of packet lengths, and how extensions that a client announces change it. */
module PacketLengths {
  import opened Wrappers
  import opened World
  import opened Framing

  const PKID_LVLINIT := 0x02
  const PKID_SETBLOCK := 0x05
  const PKID_SRVBLOCK := 0x06
  const PKID_SPAWN := 0x07
  const PKID_POSN := 0x08
  const PKID_EXTENTRY := 0x11
  const PKID_HELDBLOCK := 0x14
  const PKID_ADDENT := 0x21
  const PKID_BLOCKDEF := 0x23
  const PKID_BLOCKUNDEF := 0x24
  const PKID_BLOCKDEF2 := 0x25
  const PKID_INVORDER := 0x2C
  const PKID_HOTBAR := 0x2D
  const PKID_SETSPAWN := 0x2E

  type Table = t: seq<nat> | |t| == 256 witness seq(256, _ => 0)

  /** The extensions that matter for packet lengths, and one that matters for decoding. */
  datatype Flags = Flags(fastMap: bool, entityPosn: bool, blockNo: bool, texNo: bool, heldBlock: bool)

  const NoFlags := Flags(false, false, false, false, false)

  predicate Included(f: Flags, g: Flags) {
    && (f.fastMap ==> g.fastMap) && (f.entityPosn ==> g.entityPosn) && (f.blockNo ==> g.blockNo)
    && (f.texNo ==> g.texNo) && (f.heldBlock ==> g.heldBlock)
  }

  // ---- The table ----------------------------------------------------------------------

  /** The length of one kind of packet, given which extensions are on. */
  function Entry(f: Flags, kind: nat, v: nat): nat {
    if kind == PKID_LVLINIT then (if f.fastMap then 5 else v)
    else if kind == PKID_SPAWN then (if f.entityPosn then 80 else v)
    else if kind == PKID_ADDENT then (if f.entityPosn then 144 else v)
    else if kind == PKID_SETSPAWN then (if f.entityPosn then 15 else v)
    else if kind == PKID_POSN then
      (if f.entityPosn then (if f.blockNo then 17 else 16) else if f.blockNo then 11 else v)
    else if kind == PKID_BLOCKDEF then
      (if f.texNo then (if f.blockNo then 84 else 83) else if f.blockNo then 81 else v)
    else if kind == PKID_BLOCKDEF2 then
      (if f.texNo then (if f.blockNo then 95 else 94) else if f.blockNo then 89 else v)
    else if !f.blockNo then v
    else if kind == PKID_SETBLOCK then 10
    else if kind == PKID_SRVBLOCK then 9
    else if kind == PKID_HELDBLOCK || kind == PKID_HOTBAR then 4
    else if kind == PKID_BLOCKUNDEF then 3
    else if kind == PKID_INVORDER then 5
    else v
  }

  function Rewrite(t: Table, f: Flags): Table {
    seq(256, i requires 0 <= i < 256 => Entry(f, i, t[i]))
  }

  /** The length part of `process_extentry`, in place. */
  method RewriteLengths(msglen: array<nat>, f: Flags)
    requires msglen.Length == 256
    modifies msglen
    ensures msglen[..] == Rewrite(old(msglen[..]), f)
  {
    if f.fastMap { msglen[PKID_LVLINIT] := 5; }
    if f.entityPosn {
      msglen[PKID_SPAWN] := (2 + 64 + 6 + 2) + 6;
      msglen[PKID_POSN] := (2 + 6 + 2) + 6;
      msglen[PKID_ADDENT] := 138 + 6;
      msglen[PKID_SETSPAWN] := (1 + 6 + 2) + 6;
    }
    if f.blockNo {
      msglen[PKID_SETBLOCK] := 9 + 1;
      msglen[PKID_SRVBLOCK] := 8 + 1;
      msglen[PKID_POSN] := 2 + 6 + 2 + 1;
      msglen[PKID_HELDBLOCK] := 4;
      msglen[PKID_BLOCKDEF] := 81;
      msglen[PKID_BLOCKUNDEF] := 3;
      msglen[PKID_BLOCKDEF2] := 89;
      msglen[PKID_INVORDER] := 5;
      msglen[PKID_HOTBAR] := 4;
      if f.texNo {
        msglen[PKID_BLOCKDEF] := 81 + 3;
        msglen[PKID_BLOCKDEF2] := 89 + 6;
      }
      if f.entityPosn { msglen[PKID_POSN] := (2 + 6 + 2) + 1 + 6; }
    } else if f.texNo {
      msglen[PKID_BLOCKDEF] := 80 + 3;
      msglen[PKID_BLOCKDEF2] := 88 + 6;
    }
  }

  /** What was assigned when fewer extensions were known is assigned anew. */
  lemma RewriteAgain(t: Table, f: Flags, g: Flags)
    requires Included(f, g)
    ensures Rewrite(Rewrite(t, f), g) == Rewrite(t, g)
  {
    forall i | 0 <= i < 256 ensures Rewrite(Rewrite(t, f), g)[i] == Rewrite(t, g)[i] {
      EntryAgain(f, g, i, t[i]);
    }
  }

  lemma EntryAgain(f: Flags, g: Flags, kind: nat, v: nat)
    requires Included(f, g)
    ensures Entry(g, kind, Entry(f, kind, v)) == Entry(g, kind, v)
  {
  }

  /** Lengths before any extension is on. */
  predicate Basic(t: Table) {
    && t[0x02] == 1 && t[0x05] == 9 && t[0x06] == 8 && t[0x07] == 74 && t[0x08] == 10 && t[0x14] == 3 && t[0x21] == 138
    && t[0x23] == 80 && t[0x24] == 2 && t[0x25] == 88 && t[0x2C] == 3 && t[0x2D] == 3 && t[0x2E] == 9
  }

  function OrNot(on: bool, n: nat): nat { if on then n else 0 }

  /** What the lengths come to: with wide positions every packet that carries one is three times
      two bytes longer, with wide block numbers there is another byte for every block number in a
      packet, with wide textures one for every texture, and the fast map announces its size in
      four.  No other packet changes. */
  lemma LengthsByContent(t: Table, f: Flags)
    requires Basic(t)
    ensures forall kind :: kind in [0x07, 0x21, 0x2E] ==> Rewrite(t, f)[kind] == t[kind] + OrNot(f.entityPosn, 6)
    ensures Rewrite(t, f)[0x08] == 10 + OrNot(f.entityPosn, 6) + OrNot(f.blockNo, 1)
    ensures forall kind :: kind in [0x05, 0x06, 0x14, 0x24, 0x2D] ==>
              Rewrite(t, f)[kind] == t[kind] + OrNot(f.blockNo, 1)
    ensures Rewrite(t, f)[0x2C] == 3 + OrNot(f.blockNo, 2)
    ensures Rewrite(t, f)[0x23] == 80 + OrNot(f.blockNo, 1) + OrNot(f.texNo, 3)
    ensures Rewrite(t, f)[0x25] == 88 + OrNot(f.blockNo, 1) + OrNot(f.texNo, 6)
    ensures Rewrite(t, f)[0x02] == 1 + OrNot(f.fastMap, 4)
    ensures forall kind ::
              0 <= kind < 256 && kind !in [2, 5, 6, 7, 8, 0x14, 0x21, 0x23, 0x24, 0x25, 0x2C, 0x2D, 0x2E] ==>
                Rewrite(t, f)[kind] == t[kind]
  {
  }

  // ---- In the course of a session ---------------------------------------------------------

  datatype Extension = FastMap | EntityPosn | BlockNo | TexNo | HeldBlock | Other

  function Enable(f: Flags, x: Extension): (g: Flags)
    ensures Included(f, g)
  {
    match x
    case FastMap => f.(fastMap := true)
    case EntityPosn => f.(entityPosn := true)
    case BlockNo => f.(blockNo := true)
    case TexNo => f.(texNo := true)
    case HeldBlock => f.(heldBlock := true)
    case Other => f
  }

  datatype Env = Env(flags: Flags, table: Table)

  function Announce(e: Env, x: Extension): Env {
    var flags := Enable(e.flags, x);
    Env(flags, Rewrite(e.table, flags))
  }

  /** `decode` says which extension a packet announces. */
  function Session(decode: seq<Byte> -> Extension): Protocol<Env> {
    Protocol((e: Env, b: Byte) => e.table[b],
             (e: Env, packet: seq<Byte>) =>
               Option<Env>.Some(if packet != [] && packet[0] == PKID_EXTENTRY then Announce(e, decode(packet)) else e))
  }

  /** Whatever the client sends, in whatever order it announces its extensions, and
      however often: the table depends on nothing but which of them are on. */
  lemma {:induction false} TableFollowsFlags(decode: seq<Byte> -> Extension, base: Table, e: Env, s: seq<Byte>)
    requires e.table == Rewrite(base, e.flags)
    ensures var e' := Parse(Session(decode), e, s).env;
            e'.table == Rewrite(base, e'.flags) && Included(e.flags, e'.flags)
    decreases |s|
  {
    hide Rewrite;
    var p := Session(decode);
    if s != [] {
      var n := p.length(e, s[0]);
      if 0 < n <= |s| {
        var packet := s[..n];
        var next := p.handle(e, packet).value;
        assert s[0] == packet[0] && next == if packet[0] == PKID_EXTENTRY then Announce(e, decode(packet)) else e;
        if packet[0] == PKID_EXTENTRY { RewriteAgain(base, e.flags, next.flags); }
        TableFollowsFlags(decode, base, next, s[n..]);
      }
    }
  }

  // ---- What is decoded ------------------------------------------------------------------

  /** How many bytes the decoder of a block change takes out of the packet. */
  function SetBlockSize(f: Flags): nat { 1 + 6 + 1 + (if f.blockNo then 2 else 1) }

  /** ... and the decoder of a position. */
  function PositionSize(f: Flags): nat {
    1 + (if f.heldBlock then (if f.blockNo then 2 else 1) else 1) + (if f.entityPosn then 12 else 6) + 2
  }

  /** Block changes are decoded from exactly the bytes the table provides for.  So are
      positions, unless a client uses wide block numbers but holds no block. */
  lemma DecodersAgree(base: Table, f: Flags)
    requires base[PKID_SETBLOCK] == 9 && base[PKID_POSN] == 10
    ensures Rewrite(base, f)[PKID_SETBLOCK] == SetBlockSize(f)
    ensures Rewrite(base, f)[PKID_POSN] == PositionSize(f) <==> (f.blockNo ==> f.heldBlock)
  {
  }
}
