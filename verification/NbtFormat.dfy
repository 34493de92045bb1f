/** The level file format: a tree of labelled values as bytes, and what the reader makes
    of any sequence of bytes at all. */
module NbtFormat {
  import opened World

  const TAG_END := 0
  const TAG_I8 := 1
  const TAG_I16 := 2
  const TAG_I32 := 3
  const TAG_I64 := 4
  const TAG_F32 := 5
  const TAG_F64 := 6
  const TAG_BYTES := 7
  const TAG_TEXT := 8
  const TAG_LIST := 9
  const TAG_COMPOUND := 10

  type Label = seq<Byte>

  datatype Node =
    | Number(name: Label, width: nat, value: int)
    | Float(name: Label, bits: int)
    | Text(name: Label, text: seq<Byte>)
    | Bytes(name: Label, data: seq<Byte>)
    | Compound(name: Label, children: seq<Node>)

  // ---- Writing ------------------------------------------------------------------------

  /** The low `n` bytes of a number, highest first. */
  function BigEndian(v: int, n: nat): (s: seq<Byte>)
    ensures |s| == n
    decreases n
  {
    if n == 0 then [] else BigEndian(v / 256, n - 1) + [v % 256]
  }

  function Str(s: seq<Byte>): seq<Byte> { BigEndian(|s|, 2) + s }

  predicate IsWidth(w: nat) { w == 1 || w == 2 || w == 4 || w == 8 }

  function NumberTag(w: nat): (t: Byte)
    requires IsWidth(w)
  {
    if w == 1 then TAG_I8 else if w == 2 then TAG_I16 else if w == 4 then TAG_I32 else TAG_I64
  }

  predicate Writable(n: Node)
    decreases n
  {
    match n
    case Number(_, w, _) => IsWidth(w)
    case Compound(_, children) => forall c :: c in children ==> Writable(c)
    case _ => true
  }

  function Tag(n: Node): Byte
    requires Writable(n)
  {
    match n
    case Number(_, w, _) => NumberTag(w)
    case Float(_, _) => TAG_F32
    case Text(_, _) => TAG_TEXT
    case Bytes(_, _) => TAG_BYTES
    case Compound(_, _) => TAG_COMPOUND
  }

  function Body(n: Node): seq<Byte>
    requires Writable(n)
    decreases n, 0
  {
    match n
    case Number(_, w, v) => BigEndian(v, w)
    case Float(_, bits) => BigEndian(bits, 4)
    case Text(_, text) => Str(text)
    case Bytes(_, data) => BigEndian(|data|, 4) + data
    case Compound(_, children) => EncodeAll(children) + [TAG_END]
  }

  function Encode(n: Node): seq<Byte>
    requires Writable(n)
    decreases n, 1
  {
    [Tag(n)] + Str(n.name) + Body(n)
  }

  function EncodeAll(ns: seq<Node>): seq<Byte>
    requires forall n :: n in ns ==> Writable(n)
    decreases ns
  {
    if ns == [] then [] else Encode(ns[0]) + EncodeAll(ns[1..])
  }

  // ---- Reading numbers ----------------------------------------------------------------

  /** `gzgetc`: -1 at the end of the file. */
  function GetC(s: seq<Byte>): int { if s == [] then -1 else s[0] }

  function Drop(s: seq<Byte>, n: nat): (r: seq<Byte>)
    ensures |r| <= |s|
  {
    if |s| <= n then [] else s[n..]
  }

  /** Values of the type are unsigned; past the end of the file there are only 255s. */
  function ReadUnsigned(acc: int, s: seq<Byte>, n: nat): int
    decreases n
  {
    if n == 0 then acc else ReadUnsigned(acc * 256 + GetC(s) % 256, Drop(s, 1), n - 1)
  }

  /** The length of a byte array, where the end of the file counts as -1. */
  function ReadLength(acc: nat, s: seq<Byte>, n: nat): nat
    decreases n
  {
    if n == 0 then acc else ReadLength((acc * 256 + GetC(s)) % 0x1_0000_0000, Drop(s, 1), n - 1)
  }

  function Modulus(w: nat): int {
    if w == 1 then 0x100 else if w == 2 then 0x1_0000 else if w == 4 then 0x1_0000_0000
    else 0x1_0000_0000_0000_0000
  }

  /** The signed number of that many bytes that is left of `v`. */
  function Wrap(v: int, w: nat): int {
    var u := v % Modulus(w);
    if u >= Modulus(w) / 2 then u - Modulus(w) else u
  }

  predicate InWidth(v: int, w: nat) { -(Modulus(w) / 2) <= v < Modulus(w) / 2 }

  lemma WrapIsExact(v: int, w: nat)
    ensures Wrap(v, w) == v <==> InWidth(v, w)
  {
  }

  // ---- Reading ------------------------------------------------------------------------

  datatype Event =
    | IntValue(section: Label, name: Label, value: int)
    | FloatValue(section: Label, name: Label, width: nat, bits: int)
    | StrValue(section: Label, name: Label, text: seq<Byte>)
    | BinValue(section: Label, name: Label, data: seq<Byte>)
    | Plane(name: Label, data: seq<Byte>)

  /** What is left of the file, the reader's flat memory of where it is, whether there is
      an array for blocks to go into, and everything it has reported. */
  datatype Reader = Reader(
    rest: seq<Byte>, name: Label, section: Label, indent: int, open: bool, events: seq<Event>)

  datatype Outcome = Failed | Done(r: Reader)

  function Letter(ch: Byte, i: nat): Byte {
    if 0x61 <= ch <= 0x7A || 0x41 <= ch <= 0x5A || (0x30 <= ch <= 0x39 && i != 0)
       || ch == 0x5F || ch == 0x28 || ch == 0x29 then ch else 0x2D
  }

  function Sanitised(s: seq<Byte>): (r: seq<Byte>)
    ensures |r| == |s|
  {
    seq<Byte>(|s|, i requires 0 <= i < |s| => Letter(s[i], i))
  }

  const LABEL_SIZE: nat := 256
  const TEXT_SIZE: nat := 4096

  /** The next string of the file, its length first. */
  function TakeStr(s: seq<Byte>): (t: (bool, seq<Byte>, seq<Byte>))
    ensures t.0 ==> |t.2| + 2 <= |s|
  {
    if |s| < 2 then (false, [], [])
    else
      var len: int := (s[0] as int) * 256 + s[1] as int;
      if |s| - 2 < len then (false, [], []) else (true, s[2..2 + len], s[2 + len..])
  }

  function ReadLabel(r: Reader): (o: Outcome)
    ensures o.Done? ==> |o.r.rest| < |r.rest|
  {
    var (ok, text, rest) := TakeStr(r.rest);
    if !ok then Failed
    else Done(r.(rest := rest, name := if |text| < LABEL_SIZE - 1 then Sanitised(text) else []))
  }

  /** A C string ends at its first NUL. */
  function CString(s: seq<Byte>): (r: seq<Byte>)
    ensures r <= s && 0 !in r
  {
    if s == [] || s[0] == 0 then [] else [s[0]] + CString(s[1..])
  }

  function ReadText(r: Reader): (o: Outcome)
    ensures o.Done? ==> |o.r.rest| <= |r.rest|
  {
    var (ok, text, rest) := TakeStr(r.rest);
    if !ok then Failed
    else
      var kept := CString(if |text| < TEXT_SIZE then text else text[..TEXT_SIZE - 1]);
      Done(r.(rest := rest, events := r.events + [StrValue(r.section, r.name, kept)]))
  }

  const BLOCK_ARRAY: Label := [0x42, 0x6C, 0x6F, 0x63, 0x6B, 0x41, 0x72, 0x72, 0x61, 0x79]
  const BLOCK_ARRAY2: Label := BLOCK_ARRAY + [0x32]
  const BLOCK_ARRAY3: Label := BLOCK_ARRAY + [0x33]
  const BLOCK_ARRAY_EXT: Label := BLOCK_ARRAY + [0x45, 0x78, 0x74]
  const BLOCK_ARRAY_PHYSICS: Label := BLOCK_ARRAY + [0x50, 0x68, 0x79, 0x73, 0x69, 0x63, 0x73]

  predicate IsLaterPlane(l: Label) { l == BLOCK_ARRAY2 || l == BLOCK_ARRAY3 || l == BLOCK_ARRAY_EXT }

  predicate IsPlane(l: Label) { l == BLOCK_ARRAY || IsLaterPlane(l) || l == BLOCK_ARRAY_PHYSICS }

  const TOO_LONG: nat := 0xFFFF_0000

  /** The contents of a byte array; a long one that is no plane is skipped over. */
  function ReadContents(r: Reader, len: nat): (o: Outcome)
    ensures o.Done? ==> |o.r.rest| <= |r.rest|
  {
    if len == 0 then Done(r)
    else if IsLaterPlane(r.name) && !r.open then Failed
    else if r.name == BLOCK_ARRAY_PHYSICS && !r.open then Done(r)
    else if IsPlane(r.name) && r.name != BLOCK_ARRAY && len > TOO_LONG then Done(r)
    else if |r.rest| < len then Failed
    else
      var data, rest := r.rest[..len], r.rest[len..];
      if IsPlane(r.name) then Done(r.(rest := rest, open := true, events := r.events + [Plane(r.name, data)]))
      else if len > 256 then Done(r.(rest := rest))
      else Done(r.(rest := rest, events := r.events + [BinValue(r.section, r.name, data)]))
  }

  function ReadNumber(r: Reader, etype: int): (o: Outcome)
    requires TAG_I8 <= etype <= TAG_F64
    ensures o.Done? && |o.r.rest| <= |r.rest|
  {
    var w := if etype == TAG_I8 then 1 else if etype == TAG_I16 then 2
             else if etype == TAG_I32 || etype == TAG_F32 then 4 else 8;
    var v := Wrap(ReadUnsigned(0, r.rest, w), w);
    var event := if etype <= TAG_I64 then IntValue(r.section, r.name, v) else FloatValue(r.section, r.name, w, v);
    Done(r.(rest := Drop(r.rest, w), events := r.events + [event]))
  }

  /** `read_element`, the label already read. */
  function ReadElement(r: Reader, etype: int): (o: Outcome)
    ensures o.Done? ==> |o.r.rest| <= |r.rest|
    decreases |r.rest|, 1, 0
  {
    if etype == TAG_END then Done(r)
    else if etype == TAG_BYTES then ReadContents(r.(rest := Drop(r.rest, 4)), ReadLength(0, r.rest, 4))
    else if etype == TAG_TEXT then ReadText(r)
    else if etype == TAG_COMPOUND then
      ReadChildren(r.(section := if r.indent > 0 then r.name else r.section, indent := r.indent + 1))
    else if etype == TAG_LIST then
      if |r.rest| < 5 then Failed
      else
        var o := ReadList(r.(rest := r.rest[5..], indent := r.indent + 1), r.rest[0],
                          Wrap(ReadUnsigned(0, r.rest[1..], 4), 4));
        if o.Failed? then Failed else Done(o.r.(section := [], indent := o.r.indent - 1))
    else if etype < TAG_END || etype > TAG_COMPOUND then Failed
    else ReadNumber(r, etype)
  }

  /** The loop over the members of a compound; its end may be missing from the file. */
  function ReadChildren(r: Reader): (o: Outcome)
    ensures o.Done? ==> |o.r.rest| <= |r.rest|
    decreases |r.rest|, 0, 0
  {
    var etype := GetC(r.rest);
    if etype <= TAG_END then Done(r.(rest := Drop(r.rest, 1), indent := r.indent - 1, section := []))
    else
      var labelled := ReadLabel(r.(rest := r.rest[1..]));
      if labelled.Failed? then Failed
      else
        var o := ReadElement(labelled.r, etype);
        if o.Failed? then Failed else ReadChildren(o.r)
  }

  function ReadList(r: Reader, etype: int, n: int): (o: Outcome)
    ensures o.Done? ==> |o.r.rest| <= |r.rest|
    decreases |r.rest|, 2, if n > 0 then n else 0
  {
    if n <= 0 then Done(r)
    else
      var o := ReadElement(r, etype);
      if o.Failed? then Failed else ReadList(o.r, etype, n - 1)
  }

  // ---- A file -------------------------------------------------------------------------

  const CLASSIC_WORLD: Label := [0x43, 0x6C, 0x61, 0x73, 0x73, 0x69, 0x63, 0x57, 0x6F, 0x72, 0x6C, 0x64]
  const PACKET_LOG: Label := [0x43, 0x50, 0x45, 0x50, 0x61, 0x63, 0x6B, 0x65, 0x74, 0x4C, 0x6F, 0x67]

  datatype FileResult = NotNbt | BadFile | Loaded(r: Reader)

  /** `load_cwfile`: one compound of a known name, or some other kind of file. */
  function LoadFile(file: seq<Byte>): FileResult {
    var ch := GetC(file);
    if ch == TAG_COMPOUND && GetC(file[1..]) == 0 then
      var labelled := ReadLabel(Reader(file[1..], [], [], 0, false, []));
      if labelled.Failed? then BadFile
      else if labelled.r.name != CLASSIC_WORLD && labelled.r.name != PACKET_LOG then BadFile
      else
        var o := ReadElement(labelled.r, TAG_COMPOUND);
        if o.Failed? then BadFile else Loaded(o.r)
    else if ch == TAG_COMPOUND then NotNbt
    else if ch == -1 || ch >= 0x80 then BadFile
    else NotNbt
  }
}
