/** Translating text between code page 437 and UTF-8. */
module Cp437 {
  import opened Wrappers
  import opened Utf8
  import opened PackedUtf8
  import opened Utf8Text
  import opened Cp437Table

  // ---- To UTF-8 -----------------------------------------------------------------------

  function ToUtf8(s: seq<bv8>): seq<bv8>
    requires 0 !in s
  {
    if s == [] then [] else Encode(Rom(s[0])) + ToUtf8(s[1..])
  }

  lemma {:induction false} ToUtf8Snoc(s: seq<bv8>, b: bv8)
    requires 0 !in s && b != 0
    ensures ToUtf8(s + [b]) == ToUtf8(s) + Encode(Rom(b))
  {
    hide Rom, Encode;
    if s == [] {
      assert ToUtf8([b]) == Encode(Rom(b)) + ToUtf8([]);
    } else {
      assert (s + [b])[1..] == s[1..] + [b];
      ToUtf8Snoc(s[1..], b);
    }
  }

  function Remainder(x: bv32): (r: bv32)
    requires x < 0x10000
    ensures r < 64
  {
    x - (x / 64) * 64
  }

  lemma LastByte(x: bv32)
    requires x < 0x10000
    ensures (Remainder(x) + 128) as bv8 == Low6(x)
  {
    assert Remainder(x) == x & 0x3F;
  }

  /** Two bytes, and three. */
  lemma FirstBytes(uc: bv32)
    requires uc < 0x10000
    ensures uc / 64 < 0x10000 && uc / 64 / 64 < 16
    ensures uc < 0x800 ==> (Remainder(uc / 64) + 192) as bv8 == ((uc >> 6) | 0xC0) as bv8
    ensures (uc / 64 / 64 + 224) as bv8 == ((uc >> 12) | 0xE0) as bv8
    ensures uc / 64 == uc >> 6
  {
    assert uc / 64 == uc >> 6 && uc / 64 / 64 == uc >> 12;
    assert uc < 0x800 ==> Remainder(uc / 64) == uc >> 6;
  }

  /** The bytes of a code point, worked out by division as the source does. */
  method Utf8Bytes(uc: bv32) returns (out: seq<bv8>)
    requires uc < 0x10000
    ensures out == Encode(uc) && 1 <= |out| <= 3
  {
    hide Low6, Remainder;
    FirstBytes(uc);
    LastByte(uc);
    LastByte(uc / 64);
    var c2, c1 := uc / 64, Remainder(uc);
    var c3 := c2 / 64;
    c2 := Remainder(c2);
    if uc < 128 {
      out := [uc as bv8];
    } else if uc < 2048 {
      out := [(c2 + 192) as bv8, (c1 + 128) as bv8];
    } else {
      out := [(c3 + 224) as bv8, (c2 + 128) as bv8, (c1 + 128) as bv8];
    }
  }

  /** `convert_to_utf8` into a buffer of `len` bytes: whole characters only. */
  method ConvertToUtf8(len: int, s: seq<bv8>) returns (out: seq<bv8>)
    requires 0 !in s
    ensures exists n :: 0 <= n <= |s| && out == ToUtf8(s[..n]) && (n == |s| || |out| > len - 4)
    ensures len > 3 * |s| ==> out == ToUtf8(s)
    ensures len > 0 ==> |out| < len
  {
    hide Rom, Encode;
    out := [];
    var i := 0;
    while i < |s|
      invariant 0 <= i <= |s| && out == ToUtf8(s[..i])
      invariant |out| <= 3 * i && (len > 0 ==> |out| < len)
    {
      if |out| > len - 4 { break; }
      var bytes := Utf8Bytes(Rom(s[i]));
      ToUtf8Snoc(s[..i], s[i]);
      assert s[..i + 1] == s[..i] + [s[i]];
      out := out + bytes;
      i := i + 1;
    }
    assert s[..|s|] == s;
  }

  // ---- From UTF-8 ---------------------------------------------------------------------

  /** The last slash, backslash and dot stand-ins, and an upside-down question mark for
      everything that cannot be shown. */
  function Substitute(utf: bv32): bv8 {
    if utf == 0x2215 then 0x2F else if utf == 0x2216 then 0x5C else if utf == 0x1390 then 0x2E else 0xA8
  }

  function Search(utf: bv32): Option<bv8> {
    if Rom(Inverse(utf)) == utf then Some(Inverse(utf)) else None
  }

  function Character(utf: bv32): bv8
    requires utf >= 0x80
  {
    var found := Search(utf);
    if found.Some? then found.value else Substitute(utf)
  }

  /** What one token of the text becomes. */
  function Shown(t: Token): bv8 {
    match t
    case Plain(b) => b
    case Decoded(Code(cp)) => if cp >= 0x80 then Character(cp) else (cp & 0xFF) as bv8
    case Decoded(Bad(b)) => b
    case Decoded(More) => 0
  }

  function ShownAll(ts: seq<Token>): (s: seq<bv8>)
    ensures |s| == |ts|
  {
    if ts == [] then [] else [Shown(ts[0])] + ShownAll(ts[1..])
  }

  function FromUtf8(s: seq<bv8>): seq<bv8> { ShownAll(Tokens(Empty, s)) }

  /** The search visits the upper half of the table first. */
  function Visit(n: bv16): bv8 { ((n + 128) & 0xFF) as bv8 }

  predicate Visited(b: bv8, n: bv16) { ((b as bv16) + 128) & 0xFF < n }

  lemma VisitNext(n: bv16, b: bv8)
    ensures n < 256 && Visited(b, n + 1) ==> Visited(b, n) || b == Visit(n)
    ensures !Visited(b, 0) && Visited(b, 256)
  {
  }

  method SearchRom(utf: bv32) returns (r: Option<bv8>)
    ensures r == Search(utf)
  {
    hide Visit, Visited;
    forall b: bv8 { VisitNext(0, b); }
    var n: bv16 := 0;
    while n < 256
      invariant n <= 256
      invariant forall b: bv8 :: Visited(b, n) ==> Rom(b) != utf
      decreases 256 - n
    {
      var i := Visit(n);
      if Rom(i) == utf {
        RomInverse(i);
        return Some(i);
      }
      forall b: bv8 { VisitNext(n, b); }
      n := n + 1;
    }
    forall b: bv8 { VisitNext(n, b); }
    r := None;
  }

  lemma ShownCons(t: Token, ts: seq<Token>)
    ensures ShownAll([t] + ts) == [Shown(t)] + ShownAll(ts)
  {
    assert ([t] + ts)[1..] == ts;
  }

  lemma ShownNothing(st: State)
    requires ValidState(st)
    ensures ShownAll(Tokens(st, [])) == []
  {
  }

  /** `convert_to_cp437`, in place: what is written never overtakes what is read. */
  method ConvertToCp437(buf: array<bv8>, l: nat) returns (d: nat)
    requires l <= buf.Length
    modifies buf
    ensures d <= l && buf[..d] == FromUtf8(old(buf[..l]))
    ensures forall i :: l <= i < buf.Length ==> buf[i] == old(buf[i])
  {
    hide Tokens, ShownAll, Shown, Pack, ValidState, Held;
    ghost var whole := buf[..l];
    ghost var st := Empty;
    StartEmpty();
    var w := Register(0);
    d := 0;
    var s := 0;
    while s < l
      invariant ValidState(st) && w == Pack(st)
      invariant 0 <= d && d + |Held(st)| <= s <= l
      invariant forall i :: s <= i < l ==> buf[i] == whole[i]
      invariant forall i :: l <= i < buf.Length ==> buf[i] == old(buf[i])
      invariant buf[..d] + ShownAll(Tokens(st, whole[s..])) == FromUtf8(whole)
      decreases 2 * (l - s) + |Held(st)|
    {
      ghost var input := whole[s..];
      ghost var sofar := buf[..d];
      assert input[1..] == whole[s + 1..];
      var token, used;
      ghost var st1;
      token, used, w, st1 := NextToken(buf[s], w, st, input);
      ghost var rest := Tokens(st1, if used then input[1..] else input);
      if used { s := s + 1; }
      if token.Some? {
        ShownCons(token.value, rest);
        buf[d] := Shown(token.value);
        d := d + 1;
        assert buf[..d] == sofar + [Shown(token.value)];
      } else {
        assert [] + rest == rest;
      }
      st := st1;
    }
    ShownNothing(st);
    assert whole[s..] == [] && buf[..d] + [] == buf[..d];
  }

  // ---- There and back -----------------------------------------------------------------

  lemma RomShown(b: bv8)
    requires b != 0
    ensures Scalar(Rom(b))
    ensures Rom(b) < 0x80 ==> Rom(b) as bv8 == b
    ensures Rom(b) >= 0x80 ==> Character(Rom(b)) == b
  {
    RomInverse(b);
  }

  /** Text without NUL survives the trip to UTF-8 and back. */
  lemma {:induction false} RoundTrip(s: seq<bv8>)
    requires 0 !in s
    ensures FromUtf8(ToUtf8(s)) == s
  {
    if s != [] {
      RomShown(s[0]);
      TokensOfEncoded(Rom(s[0]), ToUtf8(s[1..]));
      RoundTrip(s[1..]);
    }
  }
}
