/** Reading a level file gives back what was written. */
module NbtRoundTrip {
  import opened World
  import opened NbtFormat

  // ---- Numbers ------------------------------------------------------------------------

  function Power(n: nat): int { if n == 0 then 1 else 256 * Power(n - 1) }

  function Num(s: seq<Byte>): int {
    if s == [] then 0 else Num(s[..|s| - 1]) * 256 + s[|s| - 1]
  }

  lemma {:induction false} BigEndianNum(v: int, n: nat) returns (q: int)
    ensures v == q * Power(n) + Num(BigEndian(v, n))
    decreases n
  {
    if n == 0 { return v; }
    q := BigEndianNum(v / 256, n - 1);
    var s := BigEndian(v / 256, n - 1);
    assert BigEndian(v, n)[..n - 1] == s;
    assert q * Power(n) == 256 * (q * Power(n - 1));
  }

  lemma {:induction false} ReadNum(acc: int, s: seq<Byte>, tail: seq<Byte>)
    ensures ReadUnsigned(acc, s + tail, |s|) == acc * Power(|s|) + Num(s)
    decreases |s|
  {
    if s != [] {
      var all := s + tail;
      assert Drop(all, 1) == s[1..] + tail && GetC(all) == s[0];
      ReadNum(acc * 256 + s[0], s[1..], tail);
      FirstDigit(s);
      assert (acc * 256 + s[0]) * Power(|s| - 1) == acc * Power(|s|) + s[0] * Power(|s| - 1);
    }
  }

  lemma {:induction false} FirstDigit(s: seq<Byte>)
    requires s != []
    ensures Num(s) == s[0] * Power(|s| - 1) + Num(s[1..])
    decreases |s|
  {
    if |s| > 1 {
      var front := s[..|s| - 1];
      FirstDigit(front);
      assert front[1..] == s[1..][..|s| - 2];
      assert 256 * (s[0] * Power(|s| - 2)) == s[0] * Power(|s| - 1);
    }
  }

  lemma PowerModulus(w: nat)
    requires IsWidth(w)
    ensures Power(w) == Modulus(w)
  {
    assert Power(2) == 256 * 256;
    assert Power(4) == 256 * Power(3);
    if w == 8 {
      assert Power(5) == 256 * Power(4);
      assert Power(7) == 256 * (256 * Power(5));
    }
  }

  lemma RemainderOff(v: int, q: int, m: int)
    requires m > 0
    ensures (v - q * m) % m == v % m
  {
    var x := v - q * m;
    assert (v / m - q) * m + v % m == x;
    DivideUniquely(x / m, x % m, v / m - q, v % m, m);
  }

  lemma WrapOff(v: int, q: int, w: nat)
    ensures Wrap(v - q * Modulus(w), w) == Wrap(v, w)
  {
    hide Modulus;
    ModulusPositive(w);
    RemainderOff(v, q, Modulus(w));
  }

  lemma ModulusPositive(w: nat)
    ensures Modulus(w) > 0
  {
  }

  /** A number of any width comes back, cut down to that width. */
  lemma NumberBack(v: int, w: nat, tail: seq<Byte>)
    requires IsWidth(w)
    ensures Wrap(ReadUnsigned(0, BigEndian(v, w) + tail, w), w) == Wrap(v, w)
  {
    var q := BigEndianNum(v, w);
    ReadNum(0, BigEndian(v, w), tail);
    PowerModulus(w);
    WrapOff(v, q, w);
  }

  lemma {:induction false} UnsignedGrows(acc: nat, s: seq<Byte>, n: nat)
    ensures ReadUnsigned(acc, s, n) >= acc
    decreases n
  {
    if n > 0 { UnsignedGrows(acc * 256 + GetC(s) % 256, Drop(s, 1), n - 1); }
  }

  lemma {:induction false} LengthIsUnsigned(acc: nat, s: seq<Byte>, n: nat)
    requires |s| >= n && ReadUnsigned(acc, s, n) < 0x1_0000_0000
    ensures ReadLength(acc, s, n) == ReadUnsigned(acc, s, n)
    decreases n
  {
    if n > 0 {
      var more := acc * 256 + GetC(s) % 256;
      UnsignedGrows(more, Drop(s, 1), n - 1);
      LengthIsUnsigned(more, Drop(s, 1), n - 1);
    }
  }

  lemma LengthBack(len: nat, tail: seq<Byte>)
    requires len < 0x1_0000_0000
    ensures ReadLength(0, BigEndian(len, 4) + tail, 4) == len
  {
    var q := BigEndianNum(len, 4);
    ReadNum(0, BigEndian(len, 4), tail);
    PowerModulus(4);
    NumRange(BigEndian(len, 4));
    assert q == 0;
    LengthIsUnsigned(0, BigEndian(len, 4) + tail, 4);
  }

  lemma {:induction false} NumRange(s: seq<Byte>)
    ensures 0 <= Num(s) < Power(|s|)
    decreases |s|
  {
    if s != [] { NumRange(s[..|s| - 1]); }
  }

  lemma StrBack(s: seq<Byte>, tail: seq<Byte>)
    requires |s| < 0x1_0000
    ensures TakeStr(Str(s) + tail) == (true, s, tail)
  {
    var b := BigEndian(|s|, 2);
    assert BigEndian(|s| / 256, 1) == BigEndian(|s| / 256 / 256, 0) + [|s| / 256 % 256];
    assert b == [|s| / 256 % 256, |s| % 256];
    var all := Str(s) + tail;
    assert all[0] == b[0] && all[1] == b[1];
    assert all[2..2 + |s|] == s && all[2 + |s|..] == tail;
  }

  // ---- What the reader should make of a document ---------------------------------------

  predicate IsClean(l: Label) { |l| < LABEL_SIZE - 1 && Sanitised(l) == l }

  /** Written by the functions that write files, with names and sizes that fit. */
  predicate Sound(n: Node)
    ensures Sound(n) ==> Writable(n)
    decreases n
  {
    && IsClean(n.name)
    && match n
       case Number(_, w, _) => IsWidth(w)
       case Float(_, _) => true
       case Text(_, text) => |text| < 0x1_0000
       case Bytes(_, data) => |data| <= TOO_LONG
       case Compound(_, children) => forall c :: c in children ==> Sound(c)
  }

  predicate FillsPlane(n: Node) { n.Bytes? && n.data != [] && IsPlane(n.name) }

  /** The lowest plane is there before any other. */
  predicate InOrder(n: Node, open: bool)
    decreases n
  {
    match n
    case Compound(_, children) => InOrderAll(children, open)
    case _ => FillsPlane(n) && n.name != BLOCK_ARRAY ==> open
  }

  predicate InOrderAll(ns: seq<Node>, open: bool)
    decreases ns
  {
    ns == [] || (InOrder(ns[0], open) && InOrderAll(ns[1..], OpenAfter(ns[0], open)))
  }

  function OpenAfter(n: Node, open: bool): bool
    decreases n
  {
    match n
    case Compound(_, children) => OpenAfterAll(children, open)
    case _ => open || FillsPlane(n)
  }

  function OpenAfterAll(ns: seq<Node>, open: bool): bool
    decreases ns
  {
    if ns == [] then open else OpenAfterAll(ns[1..], OpenAfter(ns[0], open))
  }

  function Kept(text: seq<Byte>): seq<Byte> {
    CString(if |text| < TEXT_SIZE then text else text[..TEXT_SIZE - 1])
  }

  /** What a single value is reported as, in a given section. */
  function Said(n: Node, section: Label): seq<Event>
    requires !n.Compound?
  {
    match n
    case Number(l, w, v) => [IntValue(section, l, Wrap(v, w))]
    case Float(l, bits) => [FloatValue(section, l, 4, Wrap(bits, 4))]
    case Text(l, text) => [StrValue(section, l, Kept(text))]
    case Bytes(l, data) =>
      if data == [] then []
      else if IsPlane(l) then [Plane(l, data)]
      else if |data| > 256 then []
      else [BinValue(section, l, data)]
  }

  /** The reader after a node, but for the rest of the file. */
  function Visit(n: Node, r: Reader): Reader
    decreases n
  {
    match n
    case Compound(l, children) =>
      var inside := r.(name := l, section := if r.indent > 0 then l else r.section, indent := r.indent + 1);
      VisitAll(children, inside).(section := [], indent := r.indent)
    case _ => r.(name := n.name, open := r.open || FillsPlane(n), events := r.events + Said(n, r.section))
  }

  function VisitAll(ns: seq<Node>, r: Reader): Reader
    decreases ns
  {
    if ns == [] then r else VisitAll(ns[1..], Visit(ns[0], r))
  }

  // ---- The bytes say what the document says --------------------------------------------

  lemma {:induction false} VisitRest(n: Node, r: Reader, rest: seq<Byte>)
    ensures Visit(n, r.(rest := rest)) == Visit(n, r).(rest := rest)
    ensures Visit(n, r).indent == r.indent
    decreases n
  {
    if n.Compound? {
      var inside := r.(name := n.name, section := if r.indent > 0 then n.name else r.section, indent := r.indent + 1);
      VisitAllRest(n.children, inside, rest);
    }
  }

  lemma {:induction false} VisitAllRest(ns: seq<Node>, r: Reader, rest: seq<Byte>)
    ensures VisitAll(ns, r.(rest := rest)) == VisitAll(ns, r).(rest := rest)
    ensures VisitAll(ns, r).indent == r.indent
    decreases ns
  {
    if ns != [] {
      VisitRest(ns[0], r, rest);
      VisitAllRest(ns[1..], Visit(ns[0], r), rest);
    }
  }

  lemma {:induction false} VisitOpen(n: Node, r: Reader)
    ensures Visit(n, r).open == OpenAfter(n, r.open)
    decreases n
  {
    if n.Compound? {
      VisitAllOpen(n.children,
                   r.(name := n.name, section := if r.indent > 0 then n.name else r.section, indent := r.indent + 1));
    }
  }

  lemma {:induction false} VisitAllOpen(ns: seq<Node>, r: Reader)
    ensures VisitAll(ns, r).open == OpenAfterAll(ns, r.open)
    decreases ns
  {
    if ns != [] {
      VisitOpen(ns[0], r);
      VisitAllOpen(ns[1..], Visit(ns[0], r));
    }
  }

  lemma ReadNumberValue(n: Node, r: Reader, tail: seq<Byte>)
    requires Sound(n) && (n.Number? || n.Float?)
    ensures ReadElement(r.(name := n.name, rest := Body(n) + tail), Tag(n)) == Done(Visit(n, r).(rest := tail))
  {
    hide Wrap, ReadUnsigned, BigEndian;
    match n {
      case Number(_, w, v) =>
        NumberBack(v, w, tail);
        assert Drop(Body(n) + tail, w) == tail;
      case Float(_, bits) =>
        NumberBack(bits, 4, tail);
        assert Drop(Body(n) + tail, 4) == tail;
    }
  }

  lemma ReadBytesValue(n: Node, r: Reader, tail: seq<Byte>)
    requires Sound(n) && n.Bytes? && InOrder(n, r.open)
    ensures ReadElement(r.(name := n.name, rest := Body(n) + tail), Tag(n)) == Done(Visit(n, r).(rest := tail))
  {
    hide BigEndian, ReadLength, Sanitised;
    var data, all := n.data, Body(n) + tail;
    assert all == BigEndian(|data|, 4) + (data + tail);
    LengthBack(|data|, data + tail);
    assert Drop(all, 4) == data + tail;
    assert (data + tail)[..|data|] == data && (data + tail)[|data|..] == tail;
  }

  lemma ReadValue(n: Node, r: Reader, tail: seq<Byte>)
    requires Sound(n) && !n.Compound? && InOrder(n, r.open)
    ensures ReadElement(r.(name := n.name, rest := Body(n) + tail), Tag(n)) == Done(Visit(n, r).(rest := tail))
  {
    match n
    case Number(_, _, _) => ReadNumberValue(n, r, tail);
    case Float(_, _) => ReadNumberValue(n, r, tail);
    case Text(_, text) => StrBack(text, tail);
    case Bytes(_, _) => ReadBytesValue(n, r, tail);
  }

  lemma {:induction false} ReadNode(n: Node, r: Reader, tail: seq<Byte>)
    requires Sound(n) && InOrder(n, r.open)
    ensures ReadElement(r.(name := n.name, rest := Body(n) + tail), Tag(n)) == Done(Visit(n, r).(rest := tail))
    decreases n, 0
  {
    match n {
      case Compound(l, children) =>
        var inside := r.(name := l, section := if r.indent > 0 then l else r.section, indent := r.indent + 1);
        assert Body(n) + tail == EncodeAll(children) + ([TAG_END] + tail);
        assert AllSound(children);
        ReadNodes(children, inside, tail);
      case _ => ReadValue(n, r, tail);
    }
  }

  ghost predicate AllSound(ns: seq<Node>)
    ensures AllSound(ns) ==> forall n :: n in ns ==> Writable(n)
  {
    forall n :: n in ns ==> Sound(n)
  }

  lemma Regroup(a: seq<Byte>, b: seq<Byte>, c: seq<Byte>, d: seq<Byte>, e: seq<Byte>)
    ensures (a + b + c + d) + e == a + (b + (c + (d + e)))
  {
  }

  lemma FirstInFile(ns: seq<Node>, tail: seq<Byte>)
    requires AllSound(ns) && ns != []
    ensures AllSound(ns[1..]) && Sound(ns[0])
    ensures EncodeAll(ns) + tail == [Tag(ns[0])] + (Str(ns[0].name) + (Body(ns[0]) + (EncodeAll(ns[1..]) + tail)))
  {
    hide Body, Str, Tag, BigEndian, Sound;
    Regroup([Tag(ns[0])], Str(ns[0].name), Body(ns[0]), EncodeAll(ns[1..]), tail);
  }

  /** The start of the next member of a compound. */
  lemma ReadHead(n: Node, r: Reader, after: seq<Byte>)
    requires Sound(n) && r.rest == [Tag(n)] + (Str(n.name) + after)
    ensures GetC(r.rest) == Tag(n) > TAG_END
    ensures ReadLabel(r.(rest := r.rest[1..])) == Done(r.(name := n.name, rest := after))
  {
    assert r.rest[1..] == Str(n.name) + after;
    StrBack(n.name, after);
  }

  lemma {:induction false} ReadNodes(ns: seq<Node>, r: Reader, tail: seq<Byte>)
    requires AllSound(ns) && InOrderAll(ns, r.open)
    ensures ReadChildren(r.(rest := EncodeAll(ns) + ([TAG_END] + tail))) ==
              Done(VisitAll(ns, r).(rest := tail, section := [], indent := r.indent - 1))
    decreases ns, 0
  {
    hide Body, Str, Tag, Visit, ReadLabel, ReadElement, Encode;
    var file := EncodeAll(ns) + ([TAG_END] + tail);
    if ns == [] {
      assert Drop(file, 1) == tail;
    } else {
      var n, after := ns[0], EncodeAll(ns[1..]) + ([TAG_END] + tail);
      FirstInFile(ns, [TAG_END] + tail);
      ReadHead(n, r.(rest := file), Body(n) + after);
      ReadNode(n, r, after);
      VisitOpen(n, r);
      ReadNodes(ns[1..], Visit(n, r), tail);
      VisitRest(n, r, after);
    }
  }

  // ---- When the report is the one intended ---------------------------------------------

  /** What the members of a compound are reported as: the flat memory of the section is
      gone once a nested compound has ended. */
  function Reported(ns: seq<Node>, section: Label): seq<Event>
    decreases ns
  {
    if ns == [] then []
    else if ns[0].Compound? then Reported(ns[0].children, ns[0].name) + Reported(ns[1..], [])
    else Said(ns[0], section) + Reported(ns[1..], section)
  }

  lemma {:induction false} VisitReports(ns: seq<Node>, r: Reader)
    requires r.indent > 0
    ensures VisitAll(ns, r).events == r.events + Reported(ns, r.section)
    decreases ns
  {
    if ns != [] {
      var n, r1 := ns[0], Visit(ns[0], r);
      VisitRest(n, r, r.rest);
      if n.Compound? {
        VisitReports(n.children, r.(name := n.name, section := n.name, indent := r.indent + 1));
      }
      VisitReports(ns[1..], r1);
    }
  }

  /** The intended report of a value: all of it, under the name of its own compound. */
  function Meant(n: Node, section: Label): seq<Event>
    requires !n.Compound?
  {
    match n
    case Number(l, _, v) => [IntValue(section, l, v)]
    case Float(l, bits) => [FloatValue(section, l, 4, bits)]
    case Text(l, text) => [StrValue(section, l, text)]
    case Bytes(l, data) =>
      if data == [] then []
      else if IsPlane(l) then [Plane(l, data)]
      else [BinValue(section, l, data)]
  }

  function Intended(ns: seq<Node>, section: Label): seq<Event>
    decreases ns
  {
    if ns == [] then []
    else (if ns[0].Compound? then Intended(ns[0].children, ns[0].name) else Meant(ns[0], section))
         + Intended(ns[1..], section)
  }

  /** A value that fits what the file and the reader provide for it. */
  predicate Fitting(n: Node)
    requires !n.Compound?
  {
    match n
    case Number(_, w, v) => InWidth(v, w)
    case Float(_, bits) => InWidth(bits, 4)
    case Text(_, text) => 0 !in text && |text| < TEXT_SIZE
    case Bytes(l, data) => IsPlane(l) || |data| <= 256
  }

  /** The report of this value names its section. */
  predicate NamesSection(n: Node) {
    match n
    case Compound(_, _) => false
    case Bytes(l, data) => data != [] && !IsPlane(l)
    case _ => true
  }

  /** Every value fits, and none that names its section follows a nested compound inside
      a named one.  `lost` says that a nested compound has gone before. */
  predicate WellPlaced(ns: seq<Node>, section: Label, lost: bool)
    decreases ns
  {
    ns == []
    || (if ns[0].Compound? then WellPlaced(ns[0].children, ns[0].name, false) && WellPlaced(ns[1..], section, true)
        else && Fitting(ns[0])
             && (lost && section != [] ==> !NamesSection(ns[0]))
             && WellPlaced(ns[1..], section, lost))
  }

  lemma {:induction false} CStringWhole(s: seq<Byte>)
    ensures CString(s) == s <==> 0 !in s
  {
    if s != [] && s[0] != 0 {
      CStringWhole(s[1..]);
      assert s == [s[0]] + s[1..];
    }
  }

  lemma SaidAsMeant(n: Node, section: Label, meant: Label)
    requires !n.Compound?
    ensures Said(n, section) == Meant(n, meant) <==> Fitting(n) && (section == meant || !NamesSection(n))
    ensures |Said(n, section)| <= |Meant(n, meant)|
  {
    match n
    case Number(_, w, v) => WrapIsExact(v, w);
    case Float(_, bits) => WrapIsExact(bits, 4);
    case Text(_, text) => CStringWhole(text);
    case Bytes(_, _) =>
  }

  lemma SplitEqual<T>(a: seq<T>, b: seq<T>, a': seq<T>, b': seq<T>)
    requires |a| <= |a'| && |b| <= |b'|
    ensures a + b == a' + b' <==> a == a' && b == b'
  {
    if a + b == a' + b' {
      assert |a| + |b| == |a'| + |b'|;
      assert (a + b)[..|a|] == a && (a' + b')[..|a|] == a';
      assert (a + b)[|a|..] == b && (a' + b')[|a|..] == b';
    }
  }

  /** The reader reports the members of a compound as intended, each with the name of the
      compound it stands in and its exact value, exactly if they are well placed. */
  lemma {:induction false} ReportedAsIntended(ns: seq<Node>, section: Label, lost: bool)
    ensures Reported(ns, if lost then [] else section) == Intended(ns, section) <==> WellPlaced(ns, section, lost)
    ensures |Reported(ns, if lost then [] else section)| <= |Intended(ns, section)|
    decreases ns
  {
    if ns != [] {
      var n, rest, now := ns[0], ns[1..], if lost then [] else section;
      var first := if n.Compound? then Reported(n.children, n.name) else Said(n, now);
      var meant := if n.Compound? then Intended(n.children, n.name) else Meant(n, section);
      if n.Compound? { ReportedAsIntended(n.children, n.name, false); } else { SaidAsMeant(n, now, section); }
      ReportedAsIntended(rest, section, lost || n.Compound?);
      SplitEqual(first, Reported(rest, if n.Compound? then [] else now), meant, Intended(rest, section));
    }
  }

  /** A whole document: exactly its bytes are consumed, the nesting depth is what it was,
      and the report is the intended one if and only if the document is well placed. */
  lemma DocumentRead(d: Node, r: Reader, tail: seq<Byte>)
    requires d.Compound? && Sound(d) && InOrder(d, r.open) && r.indent == 0 && r.section == []
    ensures var o := ReadElement(r.(name := d.name, rest := Body(d) + tail), TAG_COMPOUND);
            && o.Done? && o.r.rest == tail && o.r.indent == 0 && o.r.section == []
            && o.r.events == r.events + Reported(d.children, [])
            && (o.r.events == r.events + Intended(d.children, []) <==> WellPlaced(d.children, [], false))
  {
    ReadNode(d, r, tail);
    var inside := r.(name := d.name, indent := 1);
    VisitReports(d.children, inside);
    ReportedAsIntended(d.children, [], false);
    var got, meant := Reported(d.children, []), Intended(d.children, []);
    SplitEqual(r.events, got, r.events, meant);
  }
}
