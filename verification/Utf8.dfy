/** The UTF-8 decoder as a simple machine over byte sequences, and what it promises.
    PackedUtf8 is the form the source gives it. */
module Utf8 {
  import opened Wrappers

  datatype Input = Byte(b: bv8) | Eof

  /** The bytes taken in but not yet accounted for. */
  datatype State = Empty | Pending(bytes: seq<bv8>) | Broken(bytes: seq<bv8>)

  /** A code point, a byte that is part of no code point, or a request for more. */
  datatype Result = More | Code(cp: bv32) | Bad(b: bv8)

  /** How many bytes follow a first byte; 0 if it cannot be one. */
  function Following(b: bv8): (n: nat)
    ensures n <= 3
  {
    if b < 0xC2 then 0
    else if b < 0xE0 then 1
    else if b < 0xF0 then 2
    else if b < 0xF5 then 3
    else 0
  }

  predicate IsContinuation(b: bv8) { 0x80 <= b < 0xC0 }

  function Sextet(b: bv8): bv32 { (b & 0x3F) as bv32 }

  function Value2(a: bv8, b: bv8): bv32 { ((a & 0x1F) as bv32 << 6) | Sextet(b) }

  function Value3(a: bv8, b: bv8, c: bv8): bv32 {
    ((a & 0x0F) as bv32 << 12) | (Sextet(b) << 6) | Sextet(c)
  }

  function Value4(a: bv8, b: bv8, c: bv8, d: bv8): bv32 {
    ((a & 0x07) as bv32 << 18) | (Sextet(b) << 12) | (Sextet(c) << 6) | Sextet(d)
  }

  /** The number a complete sequence stands for. */
  function Value(s: seq<bv8>): bv32
    requires 2 <= |s| <= 4
  {
    if |s| == 2 then Value2(s[0], s[1])
    else if |s| == 3 then Value3(s[0], s[1], s[2])
    else Value4(s[0], s[1], s[2], s[3])
  }

  /** Not overlong, not a surrogate, not beyond the last code point. */
  predicate Acceptable(n: nat, v: bv32) {
    if n == 2 then v >= 0x80
    else if n == 3 then v >= 0x800 && !(0xD800 <= v < 0xE000)
    else 0x10000 <= v <= 0x10FFFF
  }

  ghost predicate ValidState(st: State) {
    match st
    case Empty => true
    case Pending(s) =>
      && 1 <= |s| <= Following(s[0])
      && (forall i :: 1 <= i < |s| ==> IsContinuation(s[i]))
    case Broken(s) => 1 <= |s| <= 3
  }

  // ---- The simple form ----------------------------------------------------------------

  /** A byte reported on its own: ASCII is a code point even in the middle of a mess. */
  function Single(b: bv8): Result {
    if b < 0x80 then Code(b as bv32) else Bad(b)
  }

  function Rest(s: seq<bv8>): State
    requires |s| >= 1
  {
    if |s| == 1 then Empty else Broken(s[1..])
  }

  /** One call of the decoder.  At the end of the input with nothing pending it answers
      -1, which is what the byte FF gives too. */
  function Decode(st: State, ch: Input): (r: (Result, State))
    requires ValidState(st)
    ensures ValidState(r.1)
  {
    var st0 := if ch.Byte? && st.Broken? then Empty else st;
    match st0
    case Empty =>
      if ch.Eof? then (Bad(0xFF), Empty)
      else if Following(ch.b) > 0 then (More, Pending([ch.b]))
      else (Single(ch.b), Empty)
    case Pending(s) =>
      if ch.Byte? && IsContinuation(ch.b) then
        var t := s + [ch.b];
        if |t| <= Following(s[0]) then (More, Pending(t))
        else if Acceptable(|t|, Value(t)) then (Code(Value(t)), Empty)
        else (Bad(t[0]), Rest(t))
      else
        var t := if ch.Byte? then s + [ch.b] else s;
        (Bad(t[0]), Rest(t))
    case Broken(s) => (Single(s[0]), Rest(s))
  }

  // ---- Encoding, and the table of well-formed sequences -----------------------------------

  predicate Scalar(cp: bv32) { cp <= 0x10FFFF && !(0xD800 <= cp < 0xE000) }

  function Low6(cp: bv32): bv8 { ((cp & 0x3F) | 0x80) as bv8 }

  function Encode(cp: bv32): (s: seq<bv8>)
    requires cp <= 0x10FFFF
    ensures 1 <= |s| <= 4
  {
    if cp < 0x80 then [cp as bv8]
    else if cp < 0x800 then [((cp >> 6) | 0xC0) as bv8, Low6(cp)]
    else if cp < 0x10000 then [((cp >> 12) | 0xE0) as bv8, Low6(cp >> 6), Low6(cp)]
    else [((cp >> 18) | 0xF0) as bv8, Low6(cp >> 12), Low6(cp >> 6), Low6(cp)]
  }

  /** Table 3-7 in section 3.9 of the Unicode Standard, for more than one byte. */
  predicate WellFormed(s: seq<bv8>) {
    match |s|
    case 2 => 0xC2 <= s[0] <= 0xDF && IsContinuation(s[1])
    case 3 =>
      && IsContinuation(s[2])
      && (|| (s[0] == 0xE0 && 0xA0 <= s[1] <= 0xBF)
          || (0xE1 <= s[0] <= 0xEC && IsContinuation(s[1]))
          || (s[0] == 0xED && 0x80 <= s[1] <= 0x9F)
          || (0xEE <= s[0] <= 0xEF && IsContinuation(s[1])))
    case 4 =>
      && IsContinuation(s[2]) && IsContinuation(s[3])
      && (|| (s[0] == 0xF0 && 0x90 <= s[1] <= 0xBF)
          || (0xF1 <= s[0] <= 0xF3 && IsContinuation(s[1]))
          || (s[0] == 0xF4 && 0x80 <= s[1] <= 0x8F))
    case _ => false
  }

  lemma AcceptableIsWellFormed(s: seq<bv8>)
    requires 2 <= |s| <= 4 && |s| == Following(s[0]) + 1
    requires forall i :: 1 <= i < |s| ==> IsContinuation(s[i])
    ensures Acceptable(|s|, Value(s)) <==> WellFormed(s)
  {
    hide Value2, Value3, Value4;
    if |s| == 2 { AcceptableTwo(s[0], s[1]); }
    else if |s| == 3 { AcceptableThree(s[0], s[1], s[2]); }
    else { AcceptableFour(s[0], s[1], s[2], s[3]); }
  }

  lemma AcceptableTwo(a: bv8, b: bv8)
    requires Following(a) == 1 && IsContinuation(b)
    ensures Value2(a, b) >= 0x80
  {
  }

  lemma AcceptableThree(a: bv8, b: bv8, c: bv8)
    requires Following(a) == 2 && IsContinuation(b) && IsContinuation(c)
    ensures Acceptable(3, Value3(a, b, c)) <==> WellFormed([a, b, c])
  {
  }

  lemma AcceptableFour(a: bv8, b: bv8, c: bv8, d: bv8)
    requires Following(a) == 3 && IsContinuation(b) && IsContinuation(c) && IsContinuation(d)
    ensures Acceptable(4, Value4(a, b, c, d)) <==> WellFormed([a, b, c, d])
  {
  }

  lemma EncodeValue2(a: bv8, b: bv8)
    requires Following(a) == 1 && IsContinuation(b)
    ensures var v := Value2(a, b);
            0x80 <= v < 0x800 && ((v >> 6) | 0xC0) as bv8 == a && Low6(v) == b
  {
  }

  lemma EncodeValue3(a: bv8, b: bv8, c: bv8)
    requires Following(a) == 2 && IsContinuation(b) && IsContinuation(c)
    ensures var v := Value3(a, b, c);
            v < 0x10000 && ((v >> 12) | 0xE0) as bv8 == a && Low6(v >> 6) == b && Low6(v) == c
  {
  }

  lemma EncodeValue4(a: bv8, b: bv8, c: bv8, d: bv8)
    requires Following(a) == 3 && IsContinuation(b) && IsContinuation(c) && IsContinuation(d)
    requires Value4(a, b, c, d) <= 0x10FFFF
    ensures var v := Value4(a, b, c, d);
            ((v >> 18) | 0xF0) as bv8 == a && Low6(v >> 12) == b && Low6(v >> 6) == c && Low6(v) == d
  {
  }

  ghost predicate Complete(s: seq<bv8>) {
    && 2 <= |s| <= 4 && |s| == Following(s[0]) + 1
    && forall i :: 1 <= i < |s| ==> IsContinuation(s[i])
  }

  ghost predicate Back(s: seq<bv8>)
    requires 2 <= |s| <= 4
  {
    Scalar(Value(s)) && Value(s) >= 0x80 && Encode(Value(s)) == s
  }

  lemma EncodeValue(s: seq<bv8>)
    requires Complete(s) && Acceptable(|s|, Value(s))
    ensures Back(s)
  {
    if |s| == 2 { Back2(s); }
    else if |s| == 3 { Back3(s); }
    else { Back4(s); }
  }

  lemma Back2(s: seq<bv8>)
    requires |s| == 2 && Complete(s)
    ensures Back(s)
  {
    EncodeValue2(s[0], s[1]);
    Encoded2(Value(s), s[0], s[1]);
  }

  lemma Back3(s: seq<bv8>)
    requires |s| == 3 && Complete(s) && Acceptable(3, Value(s))
    ensures Back(s)
  {
    EncodeValue3(s[0], s[1], s[2]);
    Encoded3(Value(s), s[0], s[1], s[2]);
  }

  lemma Back4(s: seq<bv8>)
    requires |s| == 4 && Complete(s) && Acceptable(4, Value(s))
    ensures Back(s)
  {
    Round4(s[0], s[1], s[2], s[3]);
    assert s == [s[0], s[1], s[2], s[3]];
  }

  lemma Round4(a: bv8, b: bv8, c: bv8, d: bv8)
    requires Following(a) == 3 && IsContinuation(b) && IsContinuation(c) && IsContinuation(d)
    requires 0x10000 <= Value4(a, b, c, d) <= 0x10FFFF
    ensures Encode(Value4(a, b, c, d)) == [a, b, c, d]
  {
    EncodeValue4(a, b, c, d);
    Encoded4(Value4(a, b, c, d), a, b, c, d);
  }

  lemma Encoded2(v: bv32, a: bv8, b: bv8)
    requires 0x80 <= v < 0x800 && ((v >> 6) | 0xC0) as bv8 == a && Low6(v) == b
    ensures Encode(v) == [a, b]
  {
  }

  lemma Encoded3(v: bv32, a: bv8, b: bv8, c: bv8)
    requires 0x800 <= v < 0x10000 && ((v >> 12) | 0xE0) as bv8 == a && Low6(v >> 6) == b && Low6(v) == c
    ensures Encode(v) == [a, b, c]
  {
  }

  lemma Encoded4(v: bv32, a: bv8, b: bv8, c: bv8, d: bv8)
    requires 0x10000 <= v <= 0x10FFFF && ((v >> 18) | 0xF0) as bv8 == a
    requires Low6(v >> 12) == b && Low6(v >> 6) == c && Low6(v) == d
    ensures Encode(v) == [a, b, c, d]
  {
  }

  lemma ValueEncode(cp: bv32)
    requires Scalar(cp) && cp >= 0x80
    ensures Complete(Encode(cp)) && Value(Encode(cp)) == cp
  {
    if cp < 0x800 { ValueEncode2(cp); }
    else if cp < 0x10000 { ValueEncode3(cp); }
    else { ValueEncode4(cp); }
  }

  lemma ValueEncode2(cp: bv32)
    requires 0x80 <= cp < 0x800
    ensures var (a, b) := (((cp >> 6) | 0xC0) as bv8, Low6(cp));
            Following(a) == 1 && IsContinuation(b) && Value2(a, b) == cp
  {
  }

  lemma ValueEncode3(cp: bv32)
    requires 0x800 <= cp < 0x10000
    ensures var (a, b, c) := (((cp >> 12) | 0xE0) as bv8, Low6(cp >> 6), Low6(cp));
            Following(a) == 2 && IsContinuation(b) && IsContinuation(c) && Value3(a, b, c) == cp
  {
  }

  lemma ValueEncode4(cp: bv32)
    requires 0x10000 <= cp <= 0x10FFFF
    ensures var (a, b, c, d) := (((cp >> 18) | 0xF0) as bv8, Low6(cp >> 12), Low6(cp >> 6), Low6(cp));
            Following(a) == 3 && IsContinuation(b) && IsContinuation(c) && IsContinuation(d)
            && Value4(a, b, c, d) == cp
  {
  }

  // ---- Decoding loses nothing ------------------------------------------------------------------

  function Held(st: State): seq<bv8> {
    match st
    case Empty => []
    case Pending(s) => s
    case Broken(s) => s
  }

  /** What a result is written back as. */
  function Rewritten(r: Result): seq<bv8>
    requires r.Code? ==> r.cp <= 0x10FFFF
  {
    match r
    case More => []
    case Code(cp) => Encode(cp)
    case Bad(b) => [b]
  }

  function Taken(ch: Input): seq<bv8> {
    if ch.Byte? then [ch.b] else []
  }

  /** The caller follows the rules: no new byte while old ones wait to be reported, and
      no end of input when there is nothing left. */
  predicate Proper(st: State, ch: Input) {
    if ch.Byte? then !st.Broken? else !st.Empty?
  }

  /** One call accounts for every byte: those held before and the one taken in are the
      ones reported and those held after. */
  lemma DecodeKeepsBytes(st: State, ch: Input)
    requires ValidState(st) && Proper(st, ch)
    ensures var (r, st') := Decode(st, ch);
            && (r.Code? ==> r.cp <= 0x10FFFF)
            && Held(st) + Taken(ch) == Rewritten(r) + Held(st')
  {
    match st
    case Pending(s) =>
      if ch.Byte? && IsContinuation(ch.b) && |s| == Following(s[0]) && Acceptable(|s| + 1, Value(s + [ch.b])) {
        EncodeValue(s + [ch.b]);
      } else {
        FirstAndRest(s + Taken(ch));
      }
    case Broken(s) =>
      SingleRewritten(s[0]);
      FirstAndRest(s);
    case Empty =>
      SingleRewritten(ch.b);
  }

  lemma FirstAndRest(t: seq<bv8>)
    requires 1 <= |t| <= 4
    ensures [t[0]] + Held(Rest(t)) == t
  {
  }

  lemma SingleRewritten(b: bv8)
    ensures Single(b).Code? ==> Single(b).cp <= 0x10FFFF
    ensures Rewritten(Single(b)) == [b]
  {
    if b < 0x80 { assert (b as bv32) as bv8 == b; }
  }

  /** A whole stream, decoded and written back: broken bytes are reported, one for each
      end-of-input call, before the next byte is read. */
  function Regenerate(st: State, input: seq<bv8>): (out: seq<bv8>)
    requires ValidState(st)
    decreases 2 * |input| + |Held(st)|
  {
    if st.Empty? && input == [] then []
    else
      var ch := if st.Broken? || input == [] then Eof else Byte(input[0]);
      DecodeKeepsBytes(st, ch);
      var (r, st') := Decode(st, ch);
      Rewritten(r) + Regenerate(st', if ch.Eof? then input else input[1..])
  }

  lemma Regroup(held: seq<bv8>, taken: seq<bv8>, out: seq<bv8>, held': seq<bv8>, rest: seq<bv8>, input: seq<bv8>)
    requires held + taken == out + held' && taken + rest == input
    ensures out + (held' + rest) == held + input
  {
    assert out + (held' + rest) == (out + held') + rest;
    assert (held + taken) + rest == held + (taken + rest);
  }

  /** The original stream comes back, whatever it was. */
  lemma {:induction false} Lossless(st: State, input: seq<bv8>)
    requires ValidState(st)
    ensures Regenerate(st, input) == Held(st) + input
    decreases 2 * |input| + |Held(st)|
  {
    hide Rewritten, Encode, Value, Acceptable, Following;
    if !(st.Empty? && input == []) {
      var ch := if st.Broken? || input == [] then Eof else Byte(input[0]);
      DecodeKeepsBytes(st, ch);
      var (r, st') := Decode(st, ch);
      var rest := if ch.Eof? then input else input[1..];
      Lossless(st', rest);
      Regroup(Held(st), Taken(ch), Rewritten(r), Held(st'), rest, input);
    }
  }

  // ---- Decoding is exact --------------------------------------------------------------

  /** The one code point that a run of bytes is answered by, after nothing but requests
      for more; None if the answers are anything else. */
  function Sole(st: State, s: seq<bv8>): Option<bv32>
    requires ValidState(st) && s != []
    decreases |s|
  {
    var (r, st1) := Decode(st, Byte(s[0]));
    if |s| == 1 then (if r.Code? then Some(r.cp) else None)
    else if r.More? then Sole(st1, s[1..])
    else None
  }

  lemma {:induction false} SolePending(t: seq<bv8>, s: seq<bv8>)
    requires ValidState(Pending(t)) && s != []
    ensures Complete(t + s) ==> (Sole(Pending(t), s) == if WellFormed(t + s) then Some(Value(t + s)) else None)
    ensures !Complete(t + s) ==> Sole(Pending(t), s) == None
    decreases |s|
  {
    var t1 := t + [s[0]];
    if !IsContinuation(s[0]) {
      assert (t + s)[|t|] == s[0];
    } else if |t1| <= Following(t[0]) {
      if |s| > 1 {
        assert t1 + s[1..] == t + s;
        SolePending(t1, s[1..]);
      }
    } else if |s| == 1 {
      assert t + s == t1;
      AcceptableIsWellFormed(t1);
    }
  }

  /** From the empty state exactly the well-formed sequences are answered by one code
      point, and it is the one that the sequence stands for. */
  lemma ExactlyWellFormed(s: seq<bv8>)
    requires s != []
    ensures Sole(Empty, s) ==
              if |s| == 1 && s[0] < 0x80 then Some(s[0] as bv32)
              else if WellFormed(s) then Some(Value(s))
              else None
  {
    if |s| > 1 && Following(s[0]) > 0 {
      assert [s[0]] + s[1..] == s;
      SolePending([s[0]], s[1..]);
    }
    WellFormedIsComplete(s);
  }

  lemma WellFormedIsComplete(s: seq<bv8>)
    ensures WellFormed(s) ==> Complete(s)
  {
  }

  /** Every code point that is not a surrogate survives being encoded and decoded. */
  lemma DecodesEncoded(cp: bv32)
    requires Scalar(cp)
    ensures Sole(Empty, Encode(cp)) == Some(cp)
  {
    var s := Encode(cp);
    ExactlyWellFormed(s);
    if cp >= 0x80 {
      ValueEncode(cp);
      EncodedAcceptable(cp);
      AcceptableIsWellFormed(s);
    } else {
      assert (cp as bv8) as bv32 == cp;
    }
  }

  lemma EncodedAcceptable(cp: bv32)
    requires Scalar(cp) && cp >= 0x80
    ensures Acceptable(|Encode(cp)|, cp)
  {
  }
}
