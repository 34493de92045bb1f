/** A whole level file: the bytes that a save produces, and the map that loading them
    leaves behind. */
module SaveFile {
  import opened World
  import opened NbtFormat
  import opened NbtCodec
  import opened NbtRoundTrip
  import opened BlockPlanes
  import SaveProtocol

  const SET_BLOCK: Label := [0x53, 0x65, 0x74, 0x42, 0x6C, 0x6F, 0x63, 0x6B]
  const X_ITEM: Label := [0x58]
  const Y_ITEM: Label := [0x59]
  const Z_ITEM: Label := [0x5A]
  const BLK_ITEM: Label := [0x42, 0x6C, 0x6B]

  // ---- Writing ------------------------------------------------------------------------

  function IntNode(item: Label, v: int): Node { Number(item, IntWidth(v), v) }

  function Record(u: Update): Node {
    Compound(SET_BLOCK, [IntNode(X_ITEM, u.x), IntNode(Y_ITEM, u.y), IntNode(Z_ITEM, u.z), IntNode(BLK_ITEM, u.b)])
  }

  function Records(log: seq<Update>): seq<Node> {
    if log == [] then [] else Records(log[..|log| - 1]) + [Record(log[|log| - 1])]
  }

  lemma {:induction false} RecordsWritable(log: seq<Update>)
    ensures forall n :: n in Records(log) ==> Writable(n)
  {
    if log != [] { RecordsWritable(log[..|log| - 1]); }
  }

  lemma {:induction false} EncodeAllConcat(a: seq<Node>, b: seq<Node>)
    requires (forall n :: n in a ==> Writable(n)) && (forall n :: n in b ==> Writable(n))
    ensures EncodeAll(a + b) == EncodeAll(a) + EncodeAll(b)
  {
    hide Encode;
    if a == [] {
      assert a + b == b;
    } else {
      assert (a + b)[1..] == a[1..] + b && (a + b)[0] == a[0];
      EncodeAllConcat(a[1..], b);
    }
  }

  lemma Regroup(h: seq<Byte>, a: seq<Byte>, b: seq<Byte>, c: seq<Byte>, d: seq<Byte>, e: seq<Byte>)
    ensures h + ((a + (b + (c + (d + [])))) + e) + [] == h + a + b + c + d + e
  {
  }

  lemma OneRecord(u: Update)
    ensures EncodeAll([Record(u)]) == [TAG_COMPOUND as Byte] + Str(SET_BLOCK)
              + Encode(IntNode(X_ITEM, u.x)) + Encode(IntNode(Y_ITEM, u.y)) + Encode(IntNode(Z_ITEM, u.z))
              + Encode(IntNode(BLK_ITEM, u.b)) + [TAG_END]
  {
    var a, b, c, d := IntNode(X_ITEM, u.x), IntNode(Y_ITEM, u.y), IntNode(Z_ITEM, u.z), IntNode(BLK_ITEM, u.b);
    FourNodes(a, b, c, d);
    OneNode(Record(u));
    Regroup([TAG_COMPOUND as Byte] + Str(SET_BLOCK), Encode(a), Encode(b), Encode(c), Encode(d), [TAG_END]);
  }

  lemma OneNode(n: Node)
    requires Writable(n)
    ensures EncodeAll([n]) == Encode(n) + []
  {
    assert [n][1..] == [];
  }

  lemma FourNodes(a: Node, b: Node, c: Node, d: Node)
    requires Writable(a) && Writable(b) && Writable(c) && Writable(d)
    ensures EncodeAll([a, b, c, d]) == Encode(a) + (Encode(b) + (Encode(c) + (Encode(d) + [])))
  {
    hide Encode;
    assert [d][1..] == [] && [c, d][1..] == [d] && [b, c, d][1..] == [c, d] && [a, b, c, d][1..] == [b, c, d];
    assert EncodeAll([d]) == Encode(d) + [];
    assert EncodeAll([c, d]) == Encode(c) + EncodeAll([d]);
    assert EncodeAll([b, c, d]) == Encode(b) + EncodeAll([c, d]);
  }

  method BcSetBlock(w: Writer, u: Update)
    modifies w
    ensures w.out == old(w.out) + EncodeAll([Record(u)])
  {
    hide Encode, Str, EncodeAll;
    OneRecord(u);
    w.BcCompound(SET_BLOCK);
    w.BcEntInt(X_ITEM, u.x);
    w.BcEntInt(Y_ITEM, u.y);
    w.BcEntInt(Z_ITEM, u.z);
    w.BcEntInt(BLK_ITEM, u.b);
    w.BcEnd();
  }

  /** `bc_write_setblocks` */
  method BcWriteSetblocks(w: Writer, list: seq<Update>)
    modifies w
    ensures (forall n :: n in Records(list) ==> Writable(n)) && w.out == old(w.out) + EncodeAll(Records(list))
  {
    hide Encode, Record;
    RecordsWritable(list);
    for i := 0 to |list|
      invariant forall n :: n in Records(list[..i]) ==> Writable(n)
      invariant w.out == old(w.out) + EncodeAll(Records(list[..i]))
    {
      var u := list[i];
      assert list[..i + 1][..i] == list[..i] && list[..i + 1][i] == u;
      RecordsWritable(list[..i + 1]);
      EncodeAllConcat(Records(list[..i]), [Record(u)]);
      BcSetBlock(w, u);
    }
    assert list[..|list|] == list;
  }

  function PlaneNode(l: Label, p: BlockPlanes.Plane): seq<Node> {
    if p.Present? then [Bytes(l, p.bytes)] else []
  }

  function PlaneNodes(p: Planes): seq<Node> {
    [Bytes(BLOCK_ARRAY, p.blocks)] + PlaneNode(BLOCK_ARRAY2, p.high) + PlaneNode(BLOCK_ARRAY3, p.high3)
    + PlaneNode(BLOCK_ARRAY_PHYSICS, p.physics)
  }

  /** What `save_map_to_file` writes: the level's properties, the planes, and the updates
      that were queued in the meantime. */
  function Members(header: seq<Node>, p: Planes, log: seq<Update>): seq<Node> {
    header + PlaneNodes(p) + Records(log)
  }

  function Document(header: seq<Node>, p: Planes, log: seq<Update>): Node {
    Compound(CLASSIC_WORLD, Members(header, p, log))
  }

  method BcPlane(w: Writer, l: Label, p: BlockPlanes.Plane)
    modifies w
    ensures (forall n :: n in PlaneNode(l, p) ==> Writable(n)) && w.out == old(w.out) + EncodeAll(PlaneNode(l, p))
  {
    hide Encode;
    if p.Present? {
      OneNode(Bytes(l, p.bytes));
      w.BcEntBytes(l, p.bytes);
    }
  }

  lemma MembersEncoded(header: seq<Node>, p: Planes, log: seq<Update>)
    requires forall n :: n in header ==> Writable(n)
    ensures Writable(Document(header, p, log))
    ensures EncodeAll(Members(header, p, log)) ==
              EncodeAll(header) + EncodeAll([Bytes(BLOCK_ARRAY, p.blocks)]) + EncodeAll(PlaneNode(BLOCK_ARRAY2, p.high))
              + EncodeAll(PlaneNode(BLOCK_ARRAY3, p.high3)) + EncodeAll(PlaneNode(BLOCK_ARRAY_PHYSICS, p.physics))
              + EncodeAll(Records(log))
  {
    hide EncodeAll;
    RecordsWritable(log);
    var a, b, c := [Bytes(BLOCK_ARRAY, p.blocks)], PlaneNode(BLOCK_ARRAY2, p.high), PlaneNode(BLOCK_ARRAY3, p.high3);
    var e := PlaneNode(BLOCK_ARRAY_PHYSICS, p.physics);
    EncodeAllConcat(a, b);
    EncodeAllConcat(a + b, c);
    EncodeAllConcat(a + b + c, e);
    EncodeAllConcat(header, PlaneNodes(p));
    EncodeAllConcat(header + PlaneNodes(p), Records(log));
  }

  /** The rest of `save_map_to_file`, once the properties have been written. */
  method WriteMap(w: Writer, p: Planes, list: seq<Update>, ghost header: seq<Node>)
    requires forall n :: n in header ==> Writable(n)
    requires w.out == [TAG_COMPOUND as Byte] + Str(CLASSIC_WORLD) + EncodeAll(header)
    modifies w
    ensures Writable(Document(header, p, list)) && w.out == Encode(Document(header, p, list))
  {
    hide EncodeAll, Encode, Str, PlaneNode;
    MembersEncoded(header, p, list);
    OneNode(Bytes(BLOCK_ARRAY, p.blocks));
    w.BcEntBytes(BLOCK_ARRAY, p.blocks);
    BcPlane(w, BLOCK_ARRAY2, p.high);
    BcPlane(w, BLOCK_ARRAY3, p.high3);
    BcPlane(w, BLOCK_ARRAY_PHYSICS, p.physics);
    BcWriteSetblocks(w, list);
    w.BcEnd();
    Join([TAG_COMPOUND as Byte] + Str(CLASSIC_WORLD), EncodeAll(header), EncodeAll([Bytes(BLOCK_ARRAY, p.blocks)]),
         EncodeAll(PlaneNode(BLOCK_ARRAY2, p.high)), EncodeAll(PlaneNode(BLOCK_ARRAY3, p.high3)),
         EncodeAll(PlaneNode(BLOCK_ARRAY_PHYSICS, p.physics)), EncodeAll(Records(list)));
    EncodedDocument(header, p, list);
  }

  lemma Join(h: seq<Byte>, a: seq<Byte>, b: seq<Byte>, c: seq<Byte>, d: seq<Byte>, e: seq<Byte>, f: seq<Byte>)
    ensures h + a + b + c + d + e + f + [TAG_END] == h + ((a + b + c + d + e + f) + [TAG_END])
  {
  }

  lemma EncodedDocument(header: seq<Node>, p: Planes, log: seq<Update>)
    requires Writable(Document(header, p, log))
    ensures Encode(Document(header, p, log)) ==
              [TAG_COMPOUND as Byte] + Str(CLASSIC_WORLD) + (EncodeAll(Members(header, p, log)) + [TAG_END])
  {
  }

  // ---- What the loader does with the report --------------------------------------------

  /** The block array, and the coordinates that the next "Blk" is for. */
  datatype Loading = Loading(blocks: seq<Block>, x: int, y: int, z: int)

  function Lower(ch: int): int { if 0x41 <= ch <= 0x5A then ch + 0x20 else ch }

  predicate SameIgnoringCase(a: Label, b: Label) {
    |a| == |b| && forall i :: 0 <= i < |a| ==> Lower(a[i]) == Lower(b[i])
  }

  /** Letters are the same whether large or small, and nothing else is. */
  lemma SameLetters(a: Label, b: Label)
    ensures SameIgnoringCase(a, b) <==>
              && |a| == |b|
              && forall i :: 0 <= i < |a| ==>
                   || a[i] == b[i]
                   || (65 <= a[i] <= 90 && b[i] == a[i] + 32)
                   || (65 <= b[i] <= 90 && a[i] == b[i] + 32)
  {
  }

  function PlaneCell(l: Label, b: Block, ch: Byte): Block {
    if l == BLOCK_ARRAY then ch
    else if l == BLOCK_ARRAY2 then HighCell(b, ch)
    else if l == BLOCK_ARRAY_PHYSICS then PhysicsCell(b, ch)
    else High3Cell(b, ch)
  }

  function Overlay(m: seq<Block>, l: Label, data: seq<Byte>): (r: seq<Block>)
    ensures |r| == |m|
  {
    seq(|m|, j requires 0 <= j < |m| => if j < |data| then PlaneCell(l, m[j], data[j]) else m[j])
  }

  /** The SetBlock part of `change_int_value`, and the planes. */
  function Apply(d: Dims, s: Loading, e: Event): (s': Loading)
    requires |s.blocks| == Volume(d)
    ensures |s'.blocks| == Volume(d)
  {
    match e
    case Plane(l, data) => s.(blocks := Overlay(s.blocks, l, data))
    case IntValue(section, item, v) =>
      if !SameIgnoringCase(section, SET_BLOCK) then s
      else if item == X_ITEM then s.(x := v)
      else if item == Y_ITEM then s.(y := v)
      else if item == Z_ITEM then s.(z := v)
      else if item == BLK_ITEM && Inside(d, s.x, s.y, s.z) then
        s.(blocks := s.blocks[Pack(d, s.x, s.y, s.z) := v % 0x1_0000])
      else s
    case _ => s
  }

  function ApplyAll(d: Dims, s: Loading, es: seq<Event>): (s': Loading)
    requires |s.blocks| == Volume(d)
    ensures |s'.blocks| == Volume(d)
    decreases |es|
  {
    if es == [] then s else ApplyAll(d, Apply(d, s, es[0]), es[1..])
  }

  lemma {:induction false} ApplyAllConcat(d: Dims, s: Loading, a: seq<Event>, b: seq<Event>)
    requires |s.blocks| == Volume(d)
    ensures ApplyAll(d, s, a + b) == ApplyAll(d, ApplyAll(d, s, a), b)
    decreases |a|
  {
    hide Apply;
    if a == [] {
      assert a + b == b;
    } else {
      assert (a + b)[0] == a[0] && (a + b)[1..] == a[1..] + b;
      ApplyAllConcat(d, Apply(d, s, a[0]), a[1..], b);
    }
  }

  predicate Inert(e: Event) {
    match e
    case Plane(_, _) => false
    case IntValue(section, _, _) => !SameIgnoringCase(section, SET_BLOCK)
    case _ => true
  }

  lemma {:induction false} InertNothing(d: Dims, s: Loading, es: seq<Event>)
    requires |s.blocks| == Volume(d) && forall e :: e in es ==> Inert(e)
    ensures ApplyAll(d, s, es) == s
    decreases |es|
  {
    if es != [] {
      assert es[0] in es && Apply(d, s, es[0]) == s;
      InertNothing(d, s, es[1..]);
    }
  }

  lemma {:induction false} ReportedConcat(a: seq<Node>, b: seq<Node>)
    ensures Reported(a + b, []) == Reported(a, []) + Reported(b, [])
    decreases |a|
  {
    hide Said;
    if a == [] {
      assert a + b == b;
    } else {
      assert (a + b)[0] == a[0] && (a + b)[1..] == a[1..] + b;
      ReportedConcat(a[1..], b);
    }
  }

  // ---- The records --------------------------------------------------------------------

  predicate Sized(d: Dims) { d.x < 0x8000_0000 && d.y < 0x8000_0000 && d.z < 0x8000_0000 }

  lemma SaidInt(item: Label, v: int, section: Label)
    requires InWidth(v, 4)
    ensures !IntNode(item, v).Compound?
    ensures Said(IntNode(item, v), section) == [IntValue(section, item, v)]
  {
    WrapIsExact(v, IntWidth(v));
  }

  function RecordEvents(u: Update): seq<Event> {
    [IntValue(SET_BLOCK, X_ITEM, u.x), IntValue(SET_BLOCK, Y_ITEM, u.y),
     IntValue(SET_BLOCK, Z_ITEM, u.z), IntValue(SET_BLOCK, BLK_ITEM, u.b)]
  }

  lemma RecordReported(d: Dims, u: Update)
    requires Sized(d) && Fits(d, u)
    ensures Reported([Record(u)], []) == RecordEvents(u)
  {
    hide Said, IntNode;
    SaidInt(X_ITEM, u.x, SET_BLOCK);
    SaidInt(Y_ITEM, u.y, SET_BLOCK);
    SaidInt(Z_ITEM, u.z, SET_BLOCK);
    SaidInt(BLK_ITEM, u.b, SET_BLOCK);
    var a, b, c, e := IntNode(X_ITEM, u.x), IntNode(Y_ITEM, u.y), IntNode(Z_ITEM, u.z), IntNode(BLK_ITEM, u.b);
    FourReported(a, b, c, e, SET_BLOCK);
    var n := Record(u);
    assert [n][1..] == [];
    assert Reported([n], []) == Reported(n.children, SET_BLOCK) + [];
  }

  lemma FourReported(a: Node, b: Node, c: Node, e: Node, section: Label)
    requires !a.Compound? && !b.Compound? && !c.Compound? && !e.Compound?
    ensures Reported([a, b, c, e], section)
         == Said(a, section) + (Said(b, section) + (Said(c, section) + (Said(e, section) + [])))
  {
    hide Said;
    assert [e][1..] == [] && [c, e][1..] == [e] && [b, c, e][1..] == [c, e] && [a, b, c, e][1..] == [b, c, e];
    assert Reported([e], section) == Said(e, section) + [];
    assert Reported([c, e], section) == Said(c, section) + Reported([e], section);
    assert Reported([b, c, e], section) == Said(b, section) + Reported([c, e], section);
  }

  /** One record changes one cell. */
  lemma RecordApplied(d: Dims, s: Loading, u: Update)
    requires |s.blocks| == Volume(d) && Fits(d, u)
    ensures ApplyAll(d, s, RecordEvents(u)).blocks == s.blocks[Cell(d, u) := u.b]
  {
    var es := RecordEvents(u);
    assert es[1..][1..][1..][1..] == [];
    var s1 := Apply(d, s, es[0]);
    var s2 := Apply(d, s1, es[1]);
    var s3 := Apply(d, s2, es[2]);
    var s4 := Apply(d, s3, es[3]);
    assert s3 == Loading(s.blocks, u.x, u.y, u.z);
    assert ApplyAll(d, s3, es[3..]) == ApplyAll(d, s4, es[3..][1..]);
    assert ApplyAll(d, s2, es[2..]) == ApplyAll(d, s3, es[2..][1..]);
    assert ApplyAll(d, s1, es[1..]) == ApplyAll(d, s2, es[1..][1..]);
  }

  lemma {:induction false} RecordsApplied(d: Dims, s: Loading, log: seq<Update>)
    requires |s.blocks| == Volume(d) && Sized(d) && AllFit(d, log)
    ensures ApplyAll(d, s, Reported(Records(log), [])).blocks == Replay(d, s.blocks, log)
    decreases |log|
  {
    hide RecordEvents, Record;
    if log != [] {
      var n := |log| - 1;
      var before, u := log[..n], log[n];
      RecordsApplied(d, s, before);
      ReportedConcat(Records(before), [Record(u)]);
      RecordReported(d, u);
      ApplyAllConcat(d, s, Reported(Records(before), []), RecordEvents(u));
      RecordApplied(d, ApplyAll(d, s, Reported(Records(before), [])), u);
      assert log == before + [u];
      ReplayOne(d, s.blocks, before, u);
    }
  }

  // ---- The planes ---------------------------------------------------------------------

  lemma OnePlane(d: Dims, s: Loading, l: Label, p: BlockPlanes.Plane)
    requires |s.blocks| == Volume(d) && IsPlane(l) && (p.Present? ==> |p.bytes| == Volume(d))
    ensures ApplyAll(d, s, Reported(PlaneNode(l, p), [])) ==
              if p.Present? then s.(blocks := Overlay(s.blocks, l, p.bytes)) else s
  {
    if p.Present? {
      var n := Bytes(l, p.bytes);
      assert [n][1..] == [];
      assert Reported([n], []) == Said(n, []) + [];
      if p.bytes == [] {
        assert Overlay(s.blocks, l, p.bytes) == s.blocks;
      } else {
        var e := NbtFormat.Plane(l, p.bytes);
        assert Said(n, []) + [] == [e] && [e][1..] == [];
        assert ApplyAll(d, s, [e]) == ApplyAll(d, Apply(d, s, e), []);
      }
    }
  }

  function After(m: seq<Block>, l: Label, p: BlockPlanes.Plane): (r: seq<Block>)
    ensures |r| == |m|
  {
    if p.Present? then Overlay(m, l, p.bytes) else m
  }

  lemma PlanesReported(p: Planes)
    ensures Reported(PlaneNodes(p), []) ==
              Reported(PlaneNode(BLOCK_ARRAY, Present(p.blocks)), []) + Reported(PlaneNode(BLOCK_ARRAY2, p.high), [])
              + Reported(PlaneNode(BLOCK_ARRAY3, p.high3), []) + Reported(PlaneNode(BLOCK_ARRAY_PHYSICS, p.physics), [])
  {
    hide PlaneNode;
    var a := PlaneNode(BLOCK_ARRAY, Present(p.blocks));
    assert a == [Bytes(BLOCK_ARRAY, p.blocks)] by { PlaneNodeIs(p.blocks); }
    var b, c, e := PlaneNode(BLOCK_ARRAY2, p.high), PlaneNode(BLOCK_ARRAY3, p.high3),
        PlaneNode(BLOCK_ARRAY_PHYSICS, p.physics);
    ReportedConcat(a, b);
    ReportedConcat(a + b, c);
    ReportedConcat(a + b + c, e);
  }

  lemma PlaneNodeIs(bytes: seq<Byte>)
    ensures PlaneNode(BLOCK_ARRAY, Present(bytes)) == [Bytes(BLOCK_ARRAY, bytes)]
  {
  }

  /** The planes put the map there, whatever was there before. */
  lemma PlanesApplied(d: Dims, s: Loading, p: Planes)
    requires |s.blocks| == Volume(d) && WellSized(p, Volume(d))
    ensures ApplyAll(d, s, Reported(PlaneNodes(p), [])).blocks == Load(p)
  {
    hide Reported, Overlay;
    PlanesReported(p);
    var a, b := Reported(PlaneNode(BLOCK_ARRAY, Present(p.blocks)), []), Reported(PlaneNode(BLOCK_ARRAY2, p.high), []);
    var c, e := Reported(PlaneNode(BLOCK_ARRAY3, p.high3), []), Reported(PlaneNode(BLOCK_ARRAY_PHYSICS, p.physics), []);
    ApplyAllConcat(d, s, a + b + c, e);
    ApplyAllConcat(d, s, a + b, c);
    ApplyAllConcat(d, s, a, b);
    var s1 := ApplyAll(d, s, a);
    OnePlane(d, s, BLOCK_ARRAY, Present(p.blocks));
    var s2 := ApplyAll(d, s1, b);
    OnePlane(d, s1, BLOCK_ARRAY2, p.high);
    var s3 := ApplyAll(d, s2, c);
    OnePlane(d, s2, BLOCK_ARRAY3, p.high3);
    OnePlane(d, s3, BLOCK_ARRAY_PHYSICS, p.physics);
    OverlaysLoad(s.blocks, p);
  }

  lemma LabelsDiffer()
    ensures |BLOCK_ARRAY| == 10 && |BLOCK_ARRAY2| == 11 && |BLOCK_ARRAY3| == 11 && |BLOCK_ARRAY_PHYSICS| == 17
    ensures BLOCK_ARRAY2[10] != BLOCK_ARRAY3[10]
  {
  }

  lemma OverlaysLoad(m: seq<Block>, p: Planes)
    requires WellSized(p, |m|)
    ensures After(After(After(After(m, BLOCK_ARRAY, Present(p.blocks)), BLOCK_ARRAY2, p.high), BLOCK_ARRAY3, p.high3),
                  BLOCK_ARRAY_PHYSICS, p.physics) == Load(p)
  {
    LabelsDiffer();
    var m1 := After(m, BLOCK_ARRAY, Present(p.blocks));
    var m2 := After(m1, BLOCK_ARRAY2, p.high);
    var m3 := After(m2, BLOCK_ARRAY3, p.high3);
    var m4 := After(m3, BLOCK_ARRAY_PHYSICS, p.physics);
    assert p.high3.Present? ==> BLOCK_ARRAY3[10] != BLOCK_ARRAY2[10];
    forall j | 0 <= j < |m| ensures m4[j] == Load(p)[j] {
      assert m1[j] == p.blocks[j];
      assert m2[j] == if p.high.Present? then HighCell(m1[j], p.high.bytes[j]) else m1[j];
      assert m3[j] == if p.high3.Present? then High3Cell(m2[j], p.high3.bytes[j]) else m2[j];
      assert m4[j] == if p.physics.Present? then PhysicsCell(m3[j], p.physics.bytes[j]) else m3[j];
    }
  }

  // ---- The whole file -----------------------------------------------------------------

  /** Properties of the level that a reader takes in without touching the block array. */
  ghost predicate IsHeader(header: seq<Node>) {
    && AllSound(header) && InOrderAll(header, false) && !OpenAfterAll(header, false)
    && forall e :: e in Reported(header, []) ==> Inert(e)
  }

  lemma MembersApplied(d: Dims, s: Loading, header: seq<Node>, p: Planes, log: seq<Update>)
    requires |s.blocks| == Volume(d) && WellSized(p, Volume(d)) && Sized(d) && AllFit(d, log) && IsHeader(header)
    ensures ApplyAll(d, s, Reported(Members(header, p, log), [])).blocks == Replay(d, Load(p), log)
  {
    hide Reported, PlaneNodes, Records, Replay, Load;
    var a, b, c := Reported(header, []), Reported(PlaneNodes(p), []), Reported(Records(log), []);
    ReportedConcat(header, PlaneNodes(p));
    ReportedConcat(header + PlaneNodes(p), Records(log));
    ApplyAllConcat(d, s, a + b, c);
    ApplyAllConcat(d, s, a, b);
    InertNothing(d, s, a);
    PlanesApplied(d, s, p);
    RecordsApplied(d, ApplyAll(d, s, b), log);
  }

  lemma NamesClean()
    ensures IsClean(CLASSIC_WORLD) && IsClean(SET_BLOCK)
    ensures IsClean(X_ITEM) && IsClean(Y_ITEM) && IsClean(Z_ITEM) && IsClean(BLK_ITEM)
    ensures IsClean(BLOCK_ARRAY) && IsClean(BLOCK_ARRAY2) && IsClean(BLOCK_ARRAY3) && IsClean(BLOCK_ARRAY_PHYSICS)
  {
  }

  lemma {:induction false} InOrderConcat(a: seq<Node>, b: seq<Node>, open: bool)
    requires InOrderAll(a, open) && InOrderAll(b, OpenAfterAll(a, open))
    ensures InOrderAll(a + b, open) && OpenAfterAll(a + b, open) == OpenAfterAll(b, OpenAfterAll(a, open))
    decreases |a|
  {
    hide InOrder, OpenAfter;
    if a == [] {
      assert a + b == b;
    } else {
      assert (a + b)[0] == a[0] && (a + b)[1..] == a[1..] + b;
      InOrderConcat(a[1..], b, OpenAfter(a[0], open));
    }
  }

  lemma OneInOrder(n: Node, open: bool)
    ensures InOrderAll([n], open) == InOrder(n, open) && OpenAfterAll([n], open) == OpenAfter(n, open)
  {
    assert [n][1..] == [];
  }

  lemma RecordInOrder(u: Update, open: bool)
    ensures InOrder(Record(u), open) && OpenAfter(Record(u), open) == open && Sound(Record(u))
  {
    NamesClean();
    var a, b, c, e := IntNode(X_ITEM, u.x), IntNode(Y_ITEM, u.y), IntNode(Z_ITEM, u.z), IntNode(BLK_ITEM, u.b);
    OneInOrder(a, open);
    OneInOrder(b, open);
    OneInOrder(c, open);
    OneInOrder(e, open);
    InOrderConcat([a], [b], open);
    InOrderConcat([a] + [b], [c], open);
    InOrderConcat([a] + [b] + [c], [e], open);
    assert [a, b, c, e] == [a] + [b] + [c] + [e];
  }

  lemma {:induction false} RecordsSound(log: seq<Update>, open: bool)
    ensures AllSound(Records(log)) && InOrderAll(Records(log), open)
    ensures OpenAfterAll(Records(log), open) == open
    decreases |log|
  {
    hide Record;
    if log != [] {
      var n := |log| - 1;
      RecordsSound(log[..n], open);
      RecordInOrder(log[n], open);
      OneInOrder(Record(log[n]), open);
      InOrderConcat(Records(log[..n]), [Record(log[n])], open);
    }
  }

  lemma PlaneInOrder(l: Label, p: BlockPlanes.Plane, open: bool)
    requires IsPlane(l) && IsClean(l) && (p.Present? ==> |p.bytes| <= TOO_LONG)
    requires open || l == BLOCK_ARRAY || (p.Present? ==> p.bytes == [])
    ensures AllSound(PlaneNode(l, p)) && InOrderAll(PlaneNode(l, p), open)
    ensures OpenAfterAll(PlaneNode(l, p), open) == (open || (p.Present? && p.bytes != []))
  {
    if p.Present? { OneInOrder(Bytes(l, p.bytes), open); }
  }

  lemma PlanesSound(p: Planes, n: nat)
    requires WellSized(p, n) && n <= TOO_LONG
    ensures AllSound(PlaneNodes(p)) && InOrderAll(PlaneNodes(p), false)
  {
    NamesClean();
    PlaneNodeIs(p.blocks);
    var a := PlaneNode(BLOCK_ARRAY, Present(p.blocks));
    var b, c, e := PlaneNode(BLOCK_ARRAY2, p.high), PlaneNode(BLOCK_ARRAY3, p.high3),
        PlaneNode(BLOCK_ARRAY_PHYSICS, p.physics);
    var open := p.blocks != [];
    PlaneInOrder(BLOCK_ARRAY, Present(p.blocks), false);
    PlaneInOrder(BLOCK_ARRAY2, p.high, open);
    PlaneInOrder(BLOCK_ARRAY3, p.high3, open);
    PlaneInOrder(BLOCK_ARRAY_PHYSICS, p.physics, open);
    InOrderConcat(a, b, false);
    InOrderConcat(a + b, c, false);
    InOrderConcat(a + b + c, e, false);
  }

  lemma DocumentSound(header: seq<Node>, p: Planes, log: seq<Update>, n: nat)
    requires IsHeader(header) && WellSized(p, n) && n <= TOO_LONG
    ensures Sound(Document(header, p, log)) && InOrder(Document(header, p, log), false)
  {
    hide PlaneNodes, Records;
    NamesClean();
    PlanesSound(p, n);
    RecordsSound(log, OpenAfterAll(header + PlaneNodes(p), false));
    InOrderConcat(header, PlaneNodes(p), false);
    InOrderConcat(header + PlaneNodes(p), Records(log), false);
  }

  /** The file of a save, loaded into a fresh array: the map that the planes hold, as it
      became through the updates that were queued. */
  lemma SavedFileLoads(d: Dims, s: Loading, header: seq<Node>, p: Planes, log: seq<Update>)
    requires |s.blocks| == Volume(d) <= TOO_LONG && Sized(d)
    requires IsHeader(header) && WellSized(p, Volume(d)) && AllFit(d, log)
    ensures var doc := Document(header, p, log);
            && Writable(doc) && LoadFile(Encode(doc)).Loaded?
            && var r := LoadFile(Encode(doc)).r;
               r.rest == [] && r.indent == 0 && ApplyAll(d, s, r.events).blocks == Replay(d, Load(p), log)
  {
    var doc := Document(header, p, log);
    DocumentSound(header, p, log, Volume(d));
    FileRead(doc);
    MembersApplied(d, s, header, p, log);
  }

  lemma FileRead(doc: Node)
    requires doc.Compound? && Sound(doc) && InOrder(doc, false) && doc.name == CLASSIC_WORLD
    ensures LoadFile(Encode(doc)).Loaded?
    ensures var r := LoadFile(Encode(doc)).r;
            r.rest == [] && r.indent == 0 && r.events == Reported(doc.children, [])
  {
    hide Reported, ReadElement, ReadLabel, Sound, BigEndian;
    var r0 := Reader([], [], [], 0, false, []);
    var file := Encode(doc);
    assert file == [TAG_COMPOUND as Byte] + (Str(CLASSIC_WORLD) + Body(doc));
    FirstNameByte();
    ReadHead(doc, r0.(rest := file), Body(doc));
    DocumentRead(doc, r0, []);
    assert Body(doc) + [] == Body(doc) && [] + Reported(doc.children, []) == Reported(doc.children, []);
    assert file[1..] == Str(CLASSIC_WORLD) + Body(doc);
    assert file[1] == Str(CLASSIC_WORLD)[0];
  }

  lemma FirstNameByte()
    ensures |Str(CLASSIC_WORLD)| > 0 && Str(CLASSIC_WORLD)[0] == 0
  {
    Bytes2(12);
  }

  // ---- The size of the map ----------------------------------------------------------------

  const FORMAT_VERSION: Label := [0x46, 0x6F, 0x72, 0x6D, 0x61, 0x74, 0x56, 0x65, 0x72, 0x73, 0x69, 0x6F, 0x6E]
  const UUID: Label := [0x55, 0x55, 0x49, 0x44]
  const MAP_SIZE: Label := [0x4D, 0x61, 0x70, 0x53, 0x69, 0x7A, 0x65]

  /** What `change_int_value` makes of the size; others write it as 16 bits with a sign. */
  function Resized(d: Dims, e: Event): Dims {
    if !e.IntValue? || !(e.section == [] || e.section == CLASSIC_WORLD || e.section == MAP_SIZE) then d
    else
      var v := if -32768 <= e.value < 0 then e.value % 0x1_0000 else e.value;
      if v < 1 then d
      else if e.name == X_ITEM then d.(x := v % 0x1_0000_0000)
      else if e.name == Y_ITEM then d.(y := v % 0x1_0000_0000)
      else if e.name == Z_ITEM then d.(z := v % 0x1_0000_0000)
      else d
  }

  /** A size is taken from the top of the file, its compound or "MapSize"; 16 bit sizes beyond
      the sign are meant, and sizes below one are not. */
  lemma SizeCases(d: Dims, section: Label, v: int)
    ensures section in [[], CLASSIC_WORLD, MAP_SIZE] && 0 < v < 0x1_0000_0000 ==>
              && Resized(d, IntValue(section, X_ITEM, v)) == d.(x := v)
              && Resized(d, IntValue(section, Y_ITEM, v)) == d.(y := v)
              && Resized(d, IntValue(section, Z_ITEM, v)) == d.(z := v)
    ensures section in [[], CLASSIC_WORLD, MAP_SIZE] && -32768 <= v < 0 ==>
              && Resized(d, IntValue(section, X_ITEM, v)) == d.(x := 65536 + v)
              && Resized(d, IntValue(section, Y_ITEM, v)) == d.(y := 65536 + v)
              && Resized(d, IntValue(section, Z_ITEM, v)) == d.(z := 65536 + v)
    ensures section !in [[], CLASSIC_WORLD, MAP_SIZE] || v < -32768 || v == 0 ==>
              forall item :: Resized(d, IntValue(section, item, v)) == d
  {
    assert -32768 <= v < 0 ==> v % 0x1_0000 == v + 0x1_0000;
  }

  function SizeRead(d: Dims, es: seq<Event>): Dims
    decreases |es|
  {
    if es == [] then d else SizeRead(Resized(d, es[0]), es[1..])
  }

  lemma {:induction false} SizeReadConcat(d: Dims, a: seq<Event>, b: seq<Event>)
    ensures SizeRead(d, a + b) == SizeRead(SizeRead(d, a), b)
    decreases |a|
  {
    hide Resized;
    if a == [] {
      assert a + b == b;
    } else {
      assert (a + b)[0] == a[0] && (a + b)[1..] == a[1..] + b;
      SizeReadConcat(Resized(d, a[0]), a[1..], b);
    }
  }

  /** Says nothing of the size. */
  ghost predicate Sizeless(e: Event) { forall d: Dims :: Resized(d, e) == d }

  lemma {:induction false} SizelessNothing(d: Dims, es: seq<Event>)
    requires forall e <- es :: Sizeless(e)
    ensures SizeRead(d, es) == d
    decreases |es|
  {
    if es != [] {
      assert Sizeless(es[0]);
      SizelessNothing(d, es[1..]);
    }
  }

  function SizeNode(item: Label, v: int, wide: bool): Node {
    if wide then IntNode(item, v) else Number(item, 2, v)
  }

  /** How a save begins: the version, sixteen bytes and the size. */
  function SizeHeader(d: Dims, uuid: seq<Byte>): seq<Node> {
    var wide := d.x >= 32768 || d.y >= 32768 || d.z >= 32768;
    [Number(FORMAT_VERSION, 1, 1), Bytes(UUID, uuid), SizeNode(X_ITEM, d.x, wide), SizeNode(Y_ITEM, d.y, wide),
     SizeNode(Z_ITEM, d.z, wide)]
  }

  function SizeEvents(d: Dims, uuid: seq<Byte>): seq<Event> {
    [IntValue([], FORMAT_VERSION, 1), BinValue([], UUID, uuid), IntValue([], X_ITEM, d.x), IntValue([], Y_ITEM, d.y),
     IntValue([], Z_ITEM, d.z)]
  }

  lemma SizeSaid(item: Label, v: int, wide: bool)
    requires 0 < v < 0x8000_0000 && (!wide ==> v < 32768)
    ensures var n := SizeNode(item, v, wide);
            !n.Compound? && !n.Bytes? && Said(n, []) == [IntValue([], item, v)]
  {
    SaidInt(item, v, []);
    WrapIsExact(v, 2);
  }

  lemma SizeHeaderReported(d: Dims, uuid: seq<Byte>)
    requires Sized(d) && d.x > 0 && d.y > 0 && d.z > 0 && |uuid| == 16
    ensures Reported(SizeHeader(d, uuid), []) == SizeEvents(d, uuid)
  {
    hide SizeNode, Said;
    var wide := d.x >= 32768 || d.y >= 32768 || d.z >= 32768;
    var a, b := Number(FORMAT_VERSION, 1, 1), Bytes(UUID, uuid);
    var c, e, f := SizeNode(X_ITEM, d.x, wide), SizeNode(Y_ITEM, d.y, wide), SizeNode(Z_ITEM, d.z, wide);
    SizeSaid(X_ITEM, d.x, wide);
    SizeSaid(Y_ITEM, d.y, wide);
    SizeSaid(Z_ITEM, d.z, wide);
    BeginningSaid(uuid);
    FourReported(b, c, e, f, []);
    assert [a, b, c, e, f][1..] == [b, c, e, f];
    assert Reported([a, b, c, e, f], []) == Said(a, []) + Reported([b, c, e, f], []);
  }

  lemma BeginningSaid(uuid: seq<Byte>)
    requires |uuid| == 16
    ensures Said(Number(FORMAT_VERSION, 1, 1), []) == [IntValue([], FORMAT_VERSION, 1)]
    ensures Said(Bytes(UUID, uuid), []) == [BinValue([], UUID, uuid)]
  {
    WrapIsExact(1, 1);
    NotAPlane();
  }

  lemma NotAPlane()
    ensures !IsPlane(UUID) && IsClean(FORMAT_VERSION) && IsClean(UUID)
    ensures !SameIgnoringCase([], SET_BLOCK) && FORMAT_VERSION != X_ITEM && FORMAT_VERSION != Y_ITEM
            && FORMAT_VERSION != Z_ITEM
  {
    LabelsDiffer();
    assert |UUID| == 4 && |FORMAT_VERSION| == 13;
  }

  /** The size comes back, whatever was known before. */
  lemma SizeHeaderRead(d: Dims, d0: Dims, uuid: seq<Byte>)
    requires Sized(d) && d.x > 0 && d.y > 0 && d.z > 0
    ensures SizeRead(d0, SizeEvents(d, uuid)) == d
  {
    NotAPlane();
    var es := SizeEvents(d, uuid);
    var d3, d4 := d0.(x := d.x), d0.(x := d.x, y := d.y);
    assert Resized(d0, es[0]) == d0 && Resized(d0, es[1]) == d0 && Resized(d0, es[2]) == d3;
    assert Resized(d3, es[3]) == d4 && Resized(d4, es[4]) == d;
    assert es[1..][1..][1..][1..][1..] == [];
    assert SizeRead(d4, es[4..]) == SizeRead(d, es[4..][1..]);
    assert SizeRead(d3, es[3..]) == SizeRead(d4, es[3..][1..]);
    assert SizeRead(d0, es[2..]) == SizeRead(d3, es[2..][1..]);
    assert SizeRead(d0, es[1..]) == SizeRead(d0, es[1..][1..]);
  }

  lemma SizeNodeSound(item: Label, v: int, wide: bool, open: bool)
    requires IsClean(item)
    ensures var n := SizeNode(item, v, wide); Sound(n) && InOrder(n, open) && OpenAfter(n, open) == open
  {
  }

  /** A save begins with a header. */
  lemma SizeHeaderIsHeader(d: Dims, uuid: seq<Byte>, more: seq<Node>)
    requires Sized(d) && d.x > 0 && d.y > 0 && d.z > 0 && |uuid| == 16 && IsHeader(more)
    ensures IsHeader(SizeHeader(d, uuid) + more)
    ensures Reported(SizeHeader(d, uuid) + more, []) == SizeEvents(d, uuid) + Reported(more, [])
  {
    hide SizeNode, Reported, Sound, InOrder, OpenAfter;
    NotAPlane();
    NamesClean();
    var wide := d.x >= 32768 || d.y >= 32768 || d.z >= 32768;
    SizeNodeSound(X_ITEM, d.x, wide, false);
    SizeNodeSound(Y_ITEM, d.y, wide, false);
    SizeNodeSound(Z_ITEM, d.z, wide, false);
    BeginningSound(uuid);
    var h := SizeHeader(d, uuid);
    FiveInOrder(h[0], h[1], h[2], h[3], h[4]);
    assert h == [h[0], h[1], h[2], h[3], h[4]];
    InOrderConcat(h, more, false);
    SizeHeaderReported(d, uuid);
    ReportedConcat(h, more);
    forall e | e in SizeEvents(d, uuid) ensures Inert(e) { }
  }

  lemma BeginningSound(uuid: seq<Byte>)
    requires |uuid| == 16
    ensures var a, b := Number(FORMAT_VERSION, 1, 1), Bytes(UUID, uuid);
            && Sound(a) && InOrder(a, false) && !OpenAfter(a, false)
            && Sound(b) && InOrder(b, false) && !OpenAfter(b, false)
  {
    NotAPlane();
  }

  lemma FiveInOrder(a: Node, b: Node, c: Node, e: Node, f: Node)
    requires InOrder(a, false) && InOrder(b, false) && InOrder(c, false) && InOrder(e, false) && InOrder(f, false)
    requires !OpenAfter(a, false) && !OpenAfter(b, false) && !OpenAfter(c, false) && !OpenAfter(e, false)
             && !OpenAfter(f, false)
    ensures InOrderAll([a, b, c, e, f], false) && !OpenAfterAll([a, b, c, e, f], false)
  {
    hide InOrder, OpenAfter;
    OneInOrder(f, false);
    assert [e, f][1..] == [f] && [c, e, f][1..] == [e, f];
    assert [b, c, e, f][1..] == [c, e, f] && [a, b, c, e, f][1..] == [b, c, e, f];
    assert InOrderAll([e, f], false) && !OpenAfterAll([e, f], false);
    assert InOrderAll([c, e, f], false) && !OpenAfterAll([c, e, f], false);
    assert InOrderAll([b, c, e, f], false) && !OpenAfterAll([b, c, e, f], false);
  }

  lemma PlanesSizeless(p: Planes)
    ensures forall e <- Reported(PlaneNodes(p), []) :: Sizeless(e)
  {
    hide Reported;
    PlanesReported(p);
    PlaneSizeless(BLOCK_ARRAY, Present(p.blocks));
    PlaneSizeless(BLOCK_ARRAY2, p.high);
    PlaneSizeless(BLOCK_ARRAY3, p.high3);
    PlaneSizeless(BLOCK_ARRAY_PHYSICS, p.physics);
  }

  lemma PlaneSizeless(l: Label, p: BlockPlanes.Plane)
    requires IsPlane(l)
    ensures forall e <- Reported(PlaneNode(l, p), []) :: Sizeless(e)
  {
    if p.Present? {
      var n := Bytes(l, p.bytes);
      assert [n][1..] == [];
      assert Reported([n], []) == Said(n, []) + [];
    }
  }

  lemma RecordSizeless(u: Update)
    ensures forall e <- RecordEvents(u) :: Sizeless(e)
  {
    assert |SET_BLOCK| == 8 && |CLASSIC_WORLD| == 12 && |MAP_SIZE| == 7;
  }

  lemma {:induction false} RecordsSizeless(d: Dims, log: seq<Update>)
    requires Sized(d) && AllFit(d, log)
    ensures forall e <- Reported(Records(log), []) :: Sizeless(e)
    decreases |log|
  {
    hide RecordEvents, Record, Sizeless;
    if log != [] {
      var n := |log| - 1;
      RecordsSizeless(d, log[..n]);
      ReportedConcat(Records(log[..n]), [Record(log[n])]);
      RecordReported(d, log[n]);
      RecordSizeless(log[n]);
    }
  }

  /** The size that is read from the file of a save is the one it was written with. */
  lemma SizeOfSavedFile(d: Dims, d0: Dims, uuid: seq<Byte>, more: seq<Node>, p: Planes, log: seq<Update>)
    requires Sized(d) && d.x > 0 && d.y > 0 && d.z > 0 && |uuid| == 16 && AllFit(d, log)
    requires IsHeader(more) && forall e <- Reported(more, []) :: Sizeless(e)
    ensures SizeRead(d0, Reported(Members(SizeHeader(d, uuid) + more, p, log), [])) == d
  {
    hide Reported, PlaneNodes, Records, Sizeless, SizeHeader, SizeEvents, IsHeader, SizeRead;
    SizeHeaderIsHeader(d, uuid, more);
    var h := SizeHeader(d, uuid) + more;
    ReportedConcat(h, PlaneNodes(p));
    ReportedConcat(h + PlaneNodes(p), Records(log));
    PlanesSizeless(p);
    RecordsSizeless(d, log);
    var a, b := SizeEvents(d, uuid), Reported(more, []);
    var e, f := Reported(PlaneNodes(p), []), Reported(Records(log), []);
    SizeReadConcat(d0, a + b + e, f);
    SizeReadConcat(d0, a + b, e);
    SizeReadConcat(d0, a, b);
    SizeHeaderRead(d, d0, uuid);
    SizelessNothing(d, b);
    SizelessNothing(d, e);
    SizelessNothing(d, f);
  }

  /** From the first step of a save to the bytes of its file and back, for every interleaving:
      the loader reads the size that was saved, whatever it took the map for before, and then
      the map as it was shared at the moment when the queue was found drained, if and only if
      each cell holds what its last record says, or has no record and was copied well.  So it
      is wherever every edit is one locked step, or every silent write has been settled. */
  lemma FileHoldsAMoment(c: SaveProtocol.Config, states: seq<SaveProtocol.State>, steps: seq<SaveProtocol.Step>,
                         uuid: seq<Byte>, more: seq<Node>, d0: Dims, fresh0: Loading)
    requires SaveProtocol.IsSave(c, states, steps)
    requires |fresh0.blocks| == Volume(c.dims) <= TOO_LONG && Sized(c.dims) && c.dims.x > 0 && c.dims.y > 0
             && c.dims.z > 0
    requires |uuid| == 16 && IsHeader(more) && forall e <- Reported(more, []) :: Sizeless(e)
    ensures var v := states[|steps|].saver;
            var doc := Document(SizeHeader(c.dims, uuid) + more, v.planes, v.redo);
            && |c.fallback| == 256 && |v.told| == |v.final| == Volume(c.dims) && AllFit(c.dims, v.redo)
            && Writable(doc) && LoadFile(Encode(doc)).Loaded?
            && var es := LoadFile(Encode(doc)).r.events;
               && SizeRead(d0, es) == c.dims
               && (ApplyAll(c.dims, fresh0, es).blocks == v.final <==> SaveProtocol.Faithful(c, v))
               && (SaveProtocol.NoneSlips(c, v) && v.told == v.final ==> ApplyAll(c.dims, fresh0, es).blocks == v.final)
               && (SaveProtocol.EditsLocked(c, states, steps) || SaveProtocol.WritesSettled(c, states, steps) ==>
                     ApplyAll(c.dims, fresh0, es).blocks == v.final)
  {
    hide SaveProtocol.Faithful, SaveProtocol.NoneSlips, SaveProtocol.EditsLocked, SaveProtocol.WritesSettled,
         Replay, Load, IsHeader, Reported, SizeHeader, Encode, LoadFile, SizeRead;
    SaveProtocol.ConsistentSave(c, states, steps);
    SaveProtocol.SaveIsAMoment(c, states, steps);
    if SaveProtocol.EditsLocked(c, states, steps) { SaveProtocol.LockedSave(c, states, steps); }
    if SaveProtocol.WritesSettled(c, states, steps) { SaveProtocol.SettledSave(c, states, steps); }
    var v, header := states[|steps|].saver, SizeHeader(c.dims, uuid) + more;
    SizeHeaderIsHeader(c.dims, uuid, more);
    SavedFileLoads(c.dims, fresh0, header, v.planes, v.redo);
    SizeOfSavedFile(c.dims, d0, uuid, more, v.planes, v.redo);
    EventsReported(c.dims, header, v.planes, v.redo);
  }

  lemma EventsReported(d: Dims, header: seq<Node>, p: Planes, log: seq<Update>)
    requires IsHeader(header) && WellSized(p, Volume(d)) && Volume(d) <= TOO_LONG
    ensures var doc := Document(header, p, log);
            && Writable(doc) && LoadFile(Encode(doc)).Loaded?
            && LoadFile(Encode(doc)).r.events == Reported(Members(header, p, log), [])
  {
    hide IsHeader;
    DocumentSound(header, p, log, Volume(d));
    FileRead(Document(header, p, log));
  }
}
