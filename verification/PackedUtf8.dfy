/** `decodeutf8` with its state packed into one machine word, as the source has it; it
    behaves like the machine of Utf8. */
module PackedUtf8 {
  import opened Wrappers
  import opened Utf8

  datatype Register = Register(bits: bv32)

  function Bits(n: nat): bv32
    requires n <= 4
  {
    if n == 0 then 0 else if n == 1 then 1 else if n == 2 then 2 else if n == 3 then 3 else 4
  }

  function ThreeBits(x: bv32): nat {
    var y := x & 7;
    if y == 0 then 0 else if y == 1 then 1 else if y == 2 then 2 else if y == 3 then 3
    else if y == 4 then 4 else if y == 5 then 5 else if y == 6 then 6 else 7
  }

  /** The fields of a word.  A negative word, as a signed number, has its top bit set. */
  function Need(w: Register): nat { ThreeBits(w.bits >> 27) }

  function Got(w: Register): nat { ThreeBits(w.bits >> 24) }

  predicate Negative(w: Register) { w.bits >= 0x8000_0000 }

  function Sextets(w: Register, i: nat): bv32
    requires i <= 4
  {
    (if i == 0 then w.bits else if i == 1 then w.bits >> 6 else if i == 2 then w.bits >> 12
     else if i == 3 then w.bits >> 18 else w.bits >> 24) & 0x3F
  }

  function Lead(w: Register, i: nat): bv8
    requires i <= 4
  {
    ((0xC0 + Sextets(w, i)) & 0xFF) as bv8
  }

  function Trail(w: Register, i: nat): bv8
    requires i <= 4
  {
    ((0x80 + Sextets(w, i)) & 0xFF) as bv8
  }

  function Octet(w: Register, i: nat): bv8
    requires i < 4
  {
    ((if i == 0 then w.bits else if i == 1 then w.bits >> 8 else if i == 2 then w.bits >> 16
      else w.bits >> 24) & 0xFF) as bv8
  }

  // ---- The word that stands for a state ----------------------------------------------

  /** Some first bytes of a sequence that began properly, perhaps all of them. */
  ghost predicate Partial(s: seq<bv8>) {
    && 1 <= |s| <= Following(s[0]) + 1 && Following(s[0]) > 0
    && forall i :: 1 <= i < |s| ==> IsContinuation(s[i])
  }

  /** The six bits of the byte that is followed by `p` more, if it is there yet. */
  function Slot(s: seq<bv8>, p: nat): bv32
    requires |s| >= 1
  {
    var k := Following(s[0]) - p;
    if 0 <= k < |s| then Sextet(s[k]) else 0
  }

  function Word(need: bv32, got: bv32, x3: bv32, x2: bv32, x1: bv32, x0: bv32): Register {
    Register((need << 27) | (got << 24) | (x3 << 18) | (x2 << 12) | (x1 << 6) | x0)
  }

  /** Low 24 bits: six bits of each byte, placed as if the sequence were complete; then
      how many bytes are there, and how many are missing. */
  function PackPartial(s: seq<bv8>): Register
    requires 1 <= |s| <= Following(s[0]) + 1
  {
    Word(Bits(Following(s[0]) + 1 - |s|), Bits(|s|), Slot(s, 3), Slot(s, 2), Slot(s, 1), Slot(s, 0))
  }

  function BrokenWord(n: bv32, a: bv32, b: bv32, c: bv32): Register {
    Register(0xF000_0000 | (n << 24) | a | (b << 8) | (c << 16))
  }

  /** The byte that is `k`th to be reported, or 0. */
  function Waiting(s: seq<bv8>, k: nat): bv32 {
    if k < |s| then s[k] as bv32 else 0
  }

  function PackBroken(s: seq<bv8>): Register
    requires 1 <= |s| <= 3
  {
    BrokenWord(Bits(|s|), Waiting(s, 0), Waiting(s, 1), Waiting(s, 2))
  }

  function Pack(st: State): Register
    requires ValidState(st)
  {
    match st
    case Empty => Register(0)
    case Pending(s) => PackPartial(s)
    case Broken(s) => PackBroken(s)
  }

  // ---- Reading the fields back --------------------------------------------------------

  lemma WordFields(need: nat, got: nat, x3: bv32, x2: bv32, x1: bv32, x0: bv32)
    requires need < 4 && 0 < got <= 4 && x3 < 64 && x2 < 64 && x1 < 64 && x0 < 64
    ensures var w := Word(Bits(need), Bits(got), x3, x2, x1, x0);
            && w != Register(0) && !Negative(w) && Need(w) == need && Got(w) == got
            && Sextets(w, 3) == x3 && Sextets(w, 2) == x2 && Sextets(w, 1) == x1 && Sextets(w, 0) == x0
  {
  }

  lemma SlotsSmall(s: seq<bv8>)
    requires |s| >= 1
    ensures Slot(s, 0) < 64 && Slot(s, 1) < 64 && Slot(s, 2) < 64 && Slot(s, 3) < 64
  {
  }

  lemma Fields(s: seq<bv8>)
    requires Partial(s)
    ensures var w := PackPartial(s);
            && w != Register(0) && !Negative(w) && Need(w) == Following(s[0]) + 1 - |s| && Got(w) == |s|
            && Sextets(w, 3) == Slot(s, 3) && Sextets(w, 2) == Slot(s, 2)
            && Sextets(w, 1) == Slot(s, 1) && Sextets(w, 0) == Slot(s, 0)
    ensures 1 <= |s| <= Following(s[0]) + 1 <= 4
  {
    hide Word, Need, Got, Sextets, Slot, Bits, Following, Negative, IsContinuation;
    SlotsSmall(s);
    WordFields(Following(s[0]) + 1 - |s|, |s|, Slot(s, 3), Slot(s, 2), Slot(s, 1), Slot(s, 0));
  }

  lemma SextetAt(s: seq<bv8>, k: nat)
    requires Partial(s) && k < |s|
    ensures 0 <= Following(s[0]) - k <= 3
    ensures Sextets(PackPartial(s), Following(s[0]) - k) == Sextet(s[k])
  {
    hide Word, Need, Got, Sextets, PackPartial, Sextet, IsContinuation, Negative;
    Fields(s);
    assert Slot(s, Following(s[0]) - k) == Sextet(s[k]);
  }

  lemma ByteAt(s: seq<bv8>, k: nat)
    requires Partial(s) && k < |s|
    ensures 0 <= Following(s[0]) - k <= 3
    ensures k == 0 ==> Lead(PackPartial(s), Following(s[0]) - k) == s[k]
    ensures k > 0 ==> Trail(PackPartial(s), Following(s[0]) - k) == s[k]
  {
    hide Sextets, PackPartial;
    SextetAt(s, k);
    BytesBack(s[k], Sextets(PackPartial(s), Following(s[0]) - k));
  }

  lemma BytesBack(b: bv8, x: bv32)
    requires x == Sextet(b)
    ensures Following(b) > 0 ==> ((0xC0 + x) & 0xFF) as bv8 == b
    ensures IsContinuation(b) ==> ((0x80 + x) & 0xFF) as bv8 == b
  {
  }

  lemma BrokenWordFields(n: nat, a: bv32, b: bv32, c: bv32)
    requires 0 < n < 4 && a < 256 && b < 256 && c < 256
    ensures var w := BrokenWord(Bits(n), a, b, c);
            && w != Register(0) && Negative(w) && Got(w) == n
            && Octet(w, 0) == a as bv8 && Octet(w, 1) == b as bv8 && Octet(w, 2) == c as bv8
  {
  }

  lemma ByteCast(b: bv8)
    ensures b as bv32 < 256 && (b as bv32) as bv8 == b
  {
  }

  lemma WaitingSmall(s: seq<bv8>, k: nat)
    ensures Waiting(s, k) < 256 && (k < |s| ==> Waiting(s, k) as bv8 == s[k])
  {
    if k < |s| { ByteCast(s[k]); }
  }

  lemma BrokenFields(s: seq<bv8>)
    requires 1 <= |s| <= 3
    ensures PackBroken(s) != Register(0) && Negative(PackBroken(s)) && Got(PackBroken(s)) == |s|
    ensures forall k :: 0 <= k < |s| ==> Octet(PackBroken(s), k) == s[k]
  {
    hide BrokenWord, Got, Octet, Waiting, Negative, Bits;
    WaitingSmall(s, 0);
    WaitingSmall(s, 1);
    WaitingSmall(s, 2);
    BrokenWordFields(|s|, Waiting(s, 0), Waiting(s, 1), Waiting(s, 2));
    forall k | 0 <= k < |s| ensures Octet(PackBroken(s), k) == s[k] {
      assert k == 0 || k == 1 || k == 2;
    }
  }

  lemma PackSigns(st: State)
    requires ValidState(st)
    ensures st.Empty? <==> Pack(st) == Register(0)
    ensures st.Broken? <==> Negative(Pack(st))
  {
    match st
    case Empty =>
    case Pending(s) => PartialSigns(s);
    case Broken(s) => BrokenSigns(s);
  }

  lemma PartialSigns(s: seq<bv8>)
    requires Partial(s)
    ensures PackPartial(s) != Register(0) && !Negative(PackPartial(s))
  {
    hide *;
    Fields(s);
  }

  lemma BrokenSigns(s: seq<bv8>)
    requires 1 <= |s| <= 3
    ensures PackBroken(s) != Register(0) && Negative(PackBroken(s))
  {
    hide *;
    BrokenFields(s);
  }

  // ---- Putting a byte in --------------------------------------------------------------

  /** `UTFlen` */
  function UtfLen(low6: bv32): nat {
    if low6 < 0x02 then 0
    else if low6 < 0x20 then 1
    else if low6 < 0x30 then 2
    else if low6 < 0x35 then 3
    else 0
  }

  lemma UtfLenIsFollowing(b: bv8)
    ensures b >= 0xC0 ==> UtfLen(Sextet(b)) == Following(b)
    ensures Following(b) > 0 ==> b >= 0xC0
  {
  }

  function Shifted(y: bv32, i: nat): bv32
    requires i <= 3
  {
    if i == 0 then y else if i == 1 then y << 6 else if i == 2 then y << 12 else y << 18
  }

  /** The word that a first byte starts. */
  function Begun(b: bv8, size: nat): Register
    requires size <= 3
  {
    Register(Shifted(Sextet(b), size) + (Bits(size) << 27) + (1 << 24))
  }

  lemma BegunPacks(b: bv8)
    requires Following(b) > 0
    ensures Begun(b, Following(b)) == PackPartial([b])
  {
    assert [b][0] == b;
    if Following(b) == 1 { } else if Following(b) == 2 { } else { }
  }

  /** One more continuation byte: six bits go in, and the two counts move on. */
  function Added(w: Register, b: bv8): Register
    requires 1 <= Need(w) <= 3 && Got(w) <= 3
  {
    var need, got := Need(w) - 1, Got(w) + 1;
    Register(((w.bits | Shifted(Sextet(b), need)) & 0xFF_FFFF) | ((Bits(need) << 27) + (Bits(got) << 24)))
  }

  lemma AddToWord(need: nat, got: nat, x3: bv32, x2: bv32, x1: bv32, x0: bv32, b: bv8)
    requires 0 < need < 4 && 0 < got < 4 && x3 < 64 && x2 < 64 && x1 < 64 && x0 < 64
    requires if need == 3 then x2 == 0 else if need == 2 then x1 == 0 else x0 == 0
    ensures var w := Word(Bits(need), Bits(got), x3, x2, x1, x0);
            && Need(w) == need && Got(w) == got
            && Added(w, b) == Word(Bits(need - 1), Bits(got + 1), x3,
                                   if need == 3 then Sextet(b) else x2,
                                   if need == 2 then Sextet(b) else x1,
                                   if need == 1 then Sextet(b) else x0)
  {
    WordFields(need, got, x3, x2, x1, x0);
    if need == 1 { } else if need == 2 { } else { }
  }

  lemma SlotsAfter(s: seq<bv8>, b: bv8)
    requires ValidState(Pending(s))
    ensures var n, t := Following(s[0]) - |s|, s + [b];
            && 0 <= n < 3 && 1 <= |s| <= 3 && |t| <= Following(t[0]) + 1
            && Slot(s, n) == 0 && Slot(t, n) == Sextet(b)
            && (n != 0 ==> Slot(t, 0) == Slot(s, 0)) && (n != 1 ==> Slot(t, 1) == Slot(s, 1))
            && (n != 2 ==> Slot(t, 2) == Slot(s, 2)) && Slot(t, 3) == Slot(s, 3)
  {
    hide Sextet;
  }

  lemma AddedPacks(s: seq<bv8>, b: bv8)
    requires ValidState(Pending(s)) && IsContinuation(b)
    ensures |s| <= Following(s[0]) <= 3 && Partial(s + [b])
    ensures 1 <= Need(PackPartial(s)) <= 3 && Got(PackPartial(s)) <= 3
    ensures Added(PackPartial(s), b) == PackPartial(s + [b])
  {
    hide Word, Added, Sextet, Slot, Bits, Following, Need, Got, IsContinuation;
    SlotsAfter(s, b);
    SlotsSmall(s);
    AddToWord(Following(s[0]) + 1 - |s|, |s|, Slot(s, 3), Slot(s, 2), Slot(s, 1), Slot(s, 0), b);
  }

  // ---- Taking the bytes out -----------------------------------------------------------

  /** Positive words: bytes of a sequence that is not going to be completed. */
  method UnpackPartial(w: Register, ghost s: seq<bv8>) returns (u: seq<bv8>)
    requires Partial(s) && w == PackPartial(s)
    ensures u == s
  {
    hide *;
    Fields(s);
    var need, got := Need(w), Got(w);
    got := got - 1;
    ByteAt(s, 0);
    u := [Lead(w, need + got)];
    assert u == s[..1];
    while got > 0
      invariant 1 <= |u| <= |s| && u == s[..|u|] && got == |s| - |u|
    {
      ByteAt(s, |u|);
      got := got - 1;
      u := u + [Trail(w, need + got)];
    }
  }

  /** Negative words: bytes waiting to be reported. */
  method UnpackBroken(w: Register, ghost s: seq<bv8>) returns (u: seq<bv8>)
    requires 1 <= |s| <= 3 && w == PackBroken(s)
    ensures u == s
  {
    hide *;
    BrokenFields(s);
    var got := Got(w);
    u := [];
    while got > 0
      invariant |u| <= |s| && u == s[..|u|] && got == |s| - |u|
    {
      got := got - 1;
      u := u + [Octet(w, |u|)];
    }
  }

  /** All but the first byte go back into a negative word. */
  method Repack(u: seq<bv8>) returns (w: Register)
    requires 1 <= |u| <= 4
    ensures w == Pack(Rest(u))
  {
    hide LowBytes, WithByte, WithCount, PackBroken;
    w := Register(0);
    LowBytesStep(u, 1);
    if |u| > 1 {
      var i := 1;
      while i < |u|
        invariant 1 <= i <= |u|
        invariant w == LowBytes(u, i)
      {
        LowBytesStep(u, i + 1);
        w := WithByte(w, u[i], i - 1);
        i := i + 1;
      }
      RepackPacks(u);
      w := WithCount(w, |u| - 1);
    }
  }

  function WithCount(w: Register, n: nat): Register
    requires n <= 4
  {
    var counted := w.bits | (Bits(n) << 24);
    Register(counted | 0xF000_0000)
  }

  lemma LowBytesStep(u: seq<bv8>, i: nat)
    requires 1 <= i <= |u| <= 4
    ensures LowBytes(u, i) == if i == 1 then Register(0) else WithByte(LowBytes(u, i - 1), u[i - 1], i - 2)
  {
  }

  lemma RepackPacks(u: seq<bv8>)
    requires 2 <= |u| <= 4
    ensures WithCount(LowBytes(u, |u|), |u| - 1) == PackBroken(u[1..])
  {
    LowBytesStep(u, 1);
    LowBytesStep(u, 2);
    if |u| == 2 {
    } else if |u| == 3 {
      LowBytesStep(u, 3);
    } else {
      LowBytesStep(u, 3);
      LowBytesStep(u, 4);
    }
  }

  function WithByte(w: Register, b: bv8, i: nat): Register
    requires i < 3
  {
    Register(w.bits | (if i == 0 then b as bv32 else if i == 1 then (b as bv32) << 8 else (b as bv32) << 16))
  }

  /** The buffer up to index `i`, without the first byte. */
  function LowBytes(u: seq<bv8>, i: nat): Register
    requires 1 <= i <= |u| <= 4
  {
    if i == 1 then Register(0) else WithByte(LowBytes(u, i - 1), u[i - 1], i - 2)
  }

  // ---- The decoder --------------------------------------------------------------------

  /** Overlong sequences, surrogates and numbers out of range are no code points. */
  function Judged(size: nat, w: Register): Option<bv32> {
    if size == 1 then
      var ch := w.bits & 0x7FF;
      if ch < 0x80 then None else Some(ch)
    else if size == 2 then
      var ch := w.bits & 0xFFFF;
      if ch < 0x800 then None
      else if ch >= 0xD800 && ch < 0xE000 then None
      else Some(ch)
    else if size == 3 then
      var ch := w.bits & 0x1F_FFFF;
      if ch < 0x10000 || ch > 0x10FFFF then None else Some(ch)
    else None
  }

  function Verdict(s: seq<bv8>): Option<bv32>
    requires 2 <= |s| <= 4
  {
    if Acceptable(|s|, Value(s)) then Some(Value(s)) else None
  }

  lemma JudgedRight(s: seq<bv8>)
    requires Complete(s)
    ensures Judged(|s| - 1, PackPartial(s)) == Verdict(s)
  {
    hide Word, Sextet, Value2, Value3, Value4, Judged, Acceptable;
    if |s| == 2 { Judged2(s[0], s[1]); }
    else if |s| == 3 { Judged3(s[0], s[1], s[2]); }
    else { Judged4(s[0], s[1], s[2], s[3]); }
  }

  lemma Judged2(a: bv8, b: bv8)
    requires Following(a) == 1
    ensures Judged(1, Word(0, 2, 0, 0, Sextet(a), Sextet(b))) ==
              if Acceptable(2, Value2(a, b)) then Some(Value2(a, b)) else None
  {
  }

  lemma Judged3(a: bv8, b: bv8, c: bv8)
    ensures Judged(2, Word(0, 3, 0, Sextet(a), Sextet(b), Sextet(c))) ==
              if Acceptable(3, Value3(a, b, c)) then Some(Value3(a, b, c)) else None
  {
    hide Word, Sextet, Value3, Low3;
    SextetSmall(a);
    SextetSmall(b);
    SextetSmall(c);
    WordLow3(Sextet(a), Sextet(b), Sextet(c));
    ValueLow(a, b, c, c);
  }

  lemma Judged4(a: bv8, b: bv8, c: bv8, d: bv8)
    ensures Judged(3, Word(0, 4, Sextet(a), Sextet(b), Sextet(c), Sextet(d))) ==
              if Acceptable(4, Value4(a, b, c, d)) then Some(Value4(a, b, c, d)) else None
  {
    hide Word, Sextet, Value4, Low4;
    SextetSmall(a);
    SextetSmall(b);
    SextetSmall(c);
    SextetSmall(d);
    WordLow4(Sextet(a), Sextet(b), Sextet(c), Sextet(d));
    ValueLow(a, b, c, d);
  }

  lemma SextetSmall(b: bv8)
    ensures Sextet(b) < 64
  {
  }

  function Low3(x2: bv32, x1: bv32, x0: bv32): bv32 {
    ((x2 & 0x0F) << 12) | (x1 << 6) | x0
  }

  function Low4(x3: bv32, x2: bv32, x1: bv32, x0: bv32): bv32 {
    ((x3 & 0x07) << 18) | (x2 << 12) | (x1 << 6) | x0
  }

  lemma WordLow3(x2: bv32, x1: bv32, x0: bv32)
    requires x2 < 64 && x1 < 64 && x0 < 64
    ensures Word(0, 3, 0, x2, x1, x0).bits & 0xFFFF == Low3(x2, x1, x0)
  {
  }

  lemma WordLow4(x3: bv32, x2: bv32, x1: bv32, x0: bv32)
    requires x3 < 64 && x2 < 64 && x1 < 64 && x0 < 64
    ensures Word(0, 4, x3, x2, x1, x0).bits & 0x1F_FFFF == Low4(x3, x2, x1, x0)
  {
  }

  lemma ValueLow(a: bv8, b: bv8, c: bv8, d: bv8)
    ensures Value3(a, b, c) == Low3(Sextet(a), Sextet(b), Sextet(c))
    ensures Value4(a, b, c, d) == Low4(Sextet(a), Sextet(b), Sextet(c), Sextet(d))
  {
    assert (a & 0x0F) as bv32 == Sextet(a) & 0x0F && (a & 0x07) as bv32 == Sextet(a) & 0x07;
  }

  /** The first byte says how long a complete sequence is. */
  lemma SizeField(s: seq<bv8>)
    requires Complete(s)
    ensures 2 <= |s| <= 4 && Partial(s) && Got(PackPartial(s)) == |s|
    ensures UtfLen(Sextets(PackPartial(s), Got(PackPartial(s)) - 1)) == |s| - 1
  {
    hide PackPartial, Sextet, Slot, Word, UtfLen, IsContinuation, Got, Sextets;
    Fields(s);
    SextetAt(s, 0);
    UtfLenIsFollowing(s[0]);
  }

  /** `decodeutf8` with nothing pending. */
  method Start(ch: Input) returns (r: Result, w: Register)
    ensures (r, w) == (Decode(Empty, ch).0, Pack(Decode(Empty, ch).1))
  {
    hide PackPartial, Sextet, UtfLen, Begun;
    w := Register(0);
    if ch.Eof? || ch.b < 0x80 { return Reply(ch), w; }
    UtfLenIsFollowing(ch.b);
    if ch.b >= 0xC0 {
      var size := UtfLen(Sextet(ch.b));
      if size != 0 {
        BegunPacks(ch.b);
        return More, Begun(ch.b, size);
      }
    }
    r := Reply(ch);
  }

  /** The answer when nothing is pending. */
  function Reply(ch: Input): Result {
    if ch.Eof? then Bad(0xFF) else Single(ch.b)
  }

  /** `decodeutf8` given one more continuation byte; None if the sequence is an error. */
  method Continue(w0: Register, b: bv8, ghost s: seq<bv8>) returns (r: Option<Result>, w: Register)
    requires ValidState(Pending(s)) && w0 == PackPartial(s) && IsContinuation(b)
    ensures var (r', st') := Decode(Pending(s), Byte(b));
            if r.Some? then r.value == r' && w == Pack(st')
            else Partial(s + [b]) && w == PackPartial(s + [b]) && r' == Bad(s[0]) && st' == Rest(s + [b])
  {
    hide PackPartial, Added, Value, Acceptable, Sextets, UtfLen, Need, Got, Judged, Following, IsContinuation;
    ghost var t := s + [b];
    AddedPacks(s, b);
    w := Added(w0, b);
    Fields(t);
    var got := Got(w);
    assert t[0] == s[0] && got == |t|;
    if Need(w) > 0 { return Some(More), w; }
    assert Complete(t);
    SizeField(t);
    JudgedRight(t);
    var cp := Judged(UtfLen(Sextets(w, got - 1)), w);
    if cp.Some? { return Some(Code(cp.value)), Register(0); }
    r := None;
  }

  /** The error part: the bytes are unpacked, the first one is reported, and the others
      wait in a negative word. */
  method Fail(w0: Register, ch: Input, ghost st: State) returns (r: Result, w: Register)
    requires match st
             case Empty => false
             case Pending(s) => Partial(s) && w0 == PackPartial(s) && |s + Taken(ch)| <= 4
             case Broken(s) => 1 <= |s| <= 3 && w0 == PackBroken(s) && ch.Eof?
    ensures var t := Held(st) + Taken(ch); 1 <= |t| <= 4 && (r, w) == (Single(t[0]), Pack(Rest(t)))
  {
    hide PackPartial, PackBroken, Pack, Single, Following, IsContinuation, Negative;
    var u: seq<bv8>;
    if st.Pending? { PartialSigns(st.bytes); } else { BrokenSigns(st.bytes); }
    if !Negative(w0) {
      u := UnpackPartial(w0, st.bytes);
      if ch.Byte? { u := u + [ch.b]; }
    } else {
      u := UnpackBroken(w0, st.bytes);
    }
    // A lone first byte is never tried again: with a byte just read there are two at least.
    assert !(|u| == 1 && u[0] >= 0xC0 && ch.Byte?);
    assert u == Held(st) + Taken(ch);
    r := Single(u[0]);
    w := Repack(u);
  }

  /** `decodeutf8`: it answers what the simple machine answers, and its word goes on
      standing for that machine's state. */
  method DecodeUtf8(ch: Input, w0: Register, ghost st: State) returns (r: Result, w: Register)
    requires ValidState(st) && w0 == Pack(st)
    ensures (r, w) == (Decode(st, ch).0, Pack(Decode(st, ch).1))
  {
    hide PackPartial, PackBroken, Value, Acceptable, Negative;
    w := w0;
    PackSigns(st);
    if ch.Byte? && Negative(w) { w := Register(0); }
    if w == Register(0) {
      r, w := Start(ch);
    } else if ch.Byte? && ch.b >= 0x80 && ch.b < 0xC0 {
      var answer;
      answer, w := Continue(w, ch.b, st.bytes);
      if answer.Some? { return answer.value, w; }
      ghost var t := st.bytes + [ch.b];
      assert t[0] == st.bytes[0] && t + [] == t;
      r, w := Fail(w, Eof, Pending(t));
    } else {
      assert Held(st) + [] == Held(st);
      r, w := Fail(w, ch, st);
    }
  }
}
