/** Level names as file names: everything a file system might trip over is replaced by a
    look-alike, and can be recovered. */
module FileNames {
  import opened Wrappers
  import opened Utf8
  import opened PackedUtf8
  import opened Utf8Text
  import opened Cp437Table
  import opened Cp437

  const SLASH: bv8 := 0x2F
  const BACKSLASH: bv8 := 0x5C
  const DOT: bv8 := 0x2E

  /** Printable ASCII that may stand in a file name as it is. */
  predicate IsSafe(b: bv8) {
    0x20 <= b <= 0x7E && b != SLASH && b != BACKSLASH && b != DOT
  }

  // ---- Making a file name -------------------------------------------------------------

  /** How many leading dots are taken together. */
  function Dots(s: seq<bv8>): (n: nat)
    requires s != [] && s[0] == DOT
    ensures 1 <= n <= 3 && n <= |s| && forall i :: 0 <= i < n ==> s[i] == DOT
  {
    if |s| < 2 || s[1] != DOT then 1 else if |s| < 3 || s[2] != DOT then 2 else 3
  }

  /** One, two or three dot leaders. */
  function Leader(n: nat): bv32 {
    if n == 1 then 0x2024 else if n == 2 then 0x2025 else 0x2026
  }

  /** The stand-in for any other character. */
  function StandIn(b: bv8): (uc: bv32)
    requires b != 0 && b != DOT && !IsSafe(b)
    ensures 0x80 <= uc < 0x2700
  {
    if b == SLASH then 0x2215 else if b == BACKSLASH then 0x2216 else Rom(b)
  }

  function Fixed(s: seq<bv8>): seq<bv8>
    requires 0 !in s
  {
    if s == [] then []
    else if s[0] == DOT then Encode(Leader(Dots(s))) + Fixed(s[Dots(s)..])
    else if IsSafe(s[0]) then [s[0]] + Fixed(s[1..])
    else Encode(StandIn(s[0])) + Fixed(s[1..])
  }

  /** The bytes that the first character, or run of dots, of a name takes. */
  function FirstBytes(s: seq<bv8>): (n: nat)
    requires 0 !in s && s != []
    ensures 1 <= n <= 3
  {
    if s[0] == DOT then |Encode(Leader(Dots(s)))| else if IsSafe(s[0]) then 1 else |Encode(StandIn(s[0]))|
  }

  function AfterFirst(s: seq<bv8>): (r: seq<bv8>)
    requires 0 !in s && s != []
    ensures |r| < |s| && 0 !in r
  {
    if s[0] == DOT then s[Dots(s)..] else s[1..]
  }

  /** Some number of characters of the name take exactly `n` bytes. */
  predicate EndsAt(s: seq<bv8>, n: int)
    requires 0 !in s
    decreases |s|
  {
    n == 0 || (s != [] && n >= FirstBytes(s) && EndsAt(AfterFirst(s), n - FirstBytes(s)))
  }

  /** The code point for the characters from `p`; `q` is the last of them. */
  method Replacement(s: seq<bv8>, p: nat) returns (uc: bv32, q: nat)
    requires 0 !in s && p < |s| && !IsSafe(s[p])
    ensures p <= q < |s| && uc < 0x10000
    ensures Fixed(s[p..]) == Encode(uc) + Fixed(s[q + 1..])
    ensures FirstBytes(s[p..]) == |Encode(uc)| && AfterFirst(s[p..]) == s[q + 1..]
  {
    hide Encode, Rom;
    ghost var rest := s[p..];
    q := p;
    uc := Rom(s[p]);
    if s[p] == SLASH { uc := 0x2215; }
    if s[p] == BACKSLASH { uc := 0x2216; }
    if s[p] == DOT {
      uc := 0x2024;
      if q + 1 < |s| && s[q + 1] == DOT {
        q := q + 1;
        uc := 0x2025;
        if q + 1 < |s| && s[q + 1] == DOT {
          q := q + 1;
          uc := 0x2026;
        }
      }
      assert q - p + 1 == Dots(rest) && rest[Dots(rest)..] == s[q + 1..];
    } else {
      assert rest[1..] == s[q + 1..];
      assert uc == StandIn(s[p]);
    }
    if uc < 0x80 { uc := 0xF000 + (uc & 0xFF); }
  }

  lemma FixedSafe(s: seq<bv8>, p: nat)
    requires 0 !in s && p < |s| && IsSafe(s[p])
    ensures Fixed(s[p..]) == [s[p]] + Fixed(s[p + 1..])
    ensures FirstBytes(s[p..]) == 1 && AfterFirst(s[p..]) == s[p + 1..]
  {
    assert s[p..][1..] == s[p + 1..];
  }

  lemma FixedNothing()
    ensures Fixed([]) == []
  {
  }

  /** The file name of the first `p` characters: all of them, or as many as it took to fill
      the buffer. */
  ghost predicate StopsAt(len: int, s: seq<bv8>, out: seq<bv8>, p: int)
    requires 0 !in s
  {
    0 <= p <= |s| && out + Fixed(s[p..]) == Fixed(s) && (p == |s| || |out| >= len - 1)
  }

  /** The first `n` bytes of the file name have been written, and `rest` is still to come. */
  ghost predicate Written(len: int, s: seq<bv8>, n: nat, rest: seq<bv8>)
    requires 0 !in s && 0 !in rest
  {
    && (forall m: nat :: EndsAt(s, n + m) <==> EndsAt(rest, m))
    && (forall m: nat :: m < n && EndsAt(s, m) ==> m < len - 1)
  }

  lemma WrittenMore(len: int, s: seq<bv8>, n: nat, rest: seq<bv8>)
    requires 0 !in s && 0 !in rest && rest != [] && Written(len, s, n, rest) && n < len - 1
    ensures Written(len, s, n + FirstBytes(rest), AfterFirst(rest))
  {
    hide FirstBytes, AfterFirst;
    var k, later := FirstBytes(rest), AfterFirst(rest);
    forall m: nat ensures EndsAt(s, n + k + m) <==> EndsAt(later, m) {
      assert EndsAt(s, n + (k + m)) <==> EndsAt(rest, k + m);
    }
    forall m: nat | m < n + k && EndsAt(s, m) ensures m < len - 1 {
      if m >= n { assert EndsAt(s, n + (m - n)) <==> EndsAt(rest, m - n); }
    }
  }

  /** The name fits exactly if it is short enough, or some characters just fill the buffer. */
  lemma WrittenFits(len: int, s: seq<bv8>, n: nat, rest: seq<bv8>)
    requires 0 !in s && 0 !in rest && Written(len, s, n, rest) && len > 0
    requires n + |Fixed(rest)| == |Fixed(s)| && (rest == [] || n >= len - 1)
    ensures n < len <==> |Fixed(s)| < len || EndsAt(s, len - 1)
  {
    hide FirstBytes, AfterFirst;
    assert EndsAt(s, n + 0) <==> EndsAt(rest, 0);
    if rest == [] { FixedNothing(); }
  }

  /** `fix_fname` into a buffer of `len` bytes.  The last character may take two bytes more than
      are left for it, and the NUL one; the name with its NUL fits exactly if the whole of it is
      short enough, or some number of its characters just fill the buffer. */
  method FixFname(len: int, s: seq<bv8>) returns (out: seq<bv8>)
    requires 0 !in s
    ensures exists p :: StopsAt(len, s, out, p)
    ensures len > 3 * |s| ==> out == Fixed(s)
    ensures len > 0 ==> |out| <= len + 1 && (|out| < len <==> |Fixed(s)| < len || EndsAt(s, len - 1))
  {
    hide Encode, Rom, Fixed, Written, EndsAt, FirstBytes, AfterFirst;
    out := [];
    FixedNothing();
    assert s[0..] == s && [] + Fixed(s) == Fixed(s);
    if len <= 0 {
      assert StopsAt(len, s, out, 0);
      return;
    }
    var p := 0;
    assert s[p..] == s;
    NothingWritten(len, s);
    while p < |s|
      invariant 0 <= p <= |s| && |out| <= 3 * p && |out| <= len + 1
      invariant out + Fixed(s[p..]) == Fixed(s)
      invariant Written(len, s, |out|, s[p..])
    {
      if |out| >= len - 1 {
        assert StopsAt(len, s, out, p);
        WrittenFits(len, s, |out|, s[p..]);
        return;
      }
      WrittenMore(len, s, |out|, s[p..]);
      if IsSafe(s[p]) {
        FixedSafe(s, p);
        out := out + [s[p]];
      } else {
        var uc, q := Replacement(s, p);
        var bytes := Utf8Bytes(uc);
        out := out + bytes;
        p := q;
      }
      p := p + 1;
    }
    assert s[p..] == [];
    assert StopsAt(len, s, out, p);
    WrittenFits(len, s, |out|, []);
  }

  lemma NothingWritten(len: int, s: seq<bv8>)
    requires 0 !in s
    ensures Written(len, s, 0, s)
  {
  }

  // ---- And back -----------------------------------------------------------------------

  /** What one token of a file name stands for; None if it does not belong in one. */
  function Meaning(t: Token): Option<seq<bv8>> {
    match t
    case Plain(b) => if IsSafe(b) then Some([b]) else None
    case Decoded(Code(cp)) =>
      if cp < 0x80 then (if cp == 0 then None else Some([(cp & 0xFF) as bv8]))
      else if cp == 0x2215 then Some([SLASH])
      else if cp == 0x2216 then Some([BACKSLASH])
      else if cp == 0x2024 then Some([DOT])
      else if cp == 0x2025 then Some([DOT, DOT])
      else if cp == 0x2026 then Some([DOT, DOT, DOT])
      else var found := Search(cp); if found.Some? then Some([found.value]) else None
    case _ => None
  }

  function Joined(ts: seq<Token>): Option<seq<bv8>> {
    if ts == [] then Some([])
    else
      var (first, rest) := (Meaning(ts[0]), Joined(ts[1..]));
      if first.Some? && rest.Some? then Some(first.value + rest.value) else None
  }

  function Unfixed(s: seq<bv8>): Option<seq<bv8>> { Joined(Tokens(Empty, s)) }

  lemma JoinedCons(t: Token, ts: seq<Token>)
    ensures Joined([t] + ts) == if Meaning(t).Some? then Prefixed(Meaning(t).value, Joined(ts)) else None
  {
    assert ([t] + ts)[1..] == ts;
  }

  /** `unfix_fname` into a buffer of `len` bytes; the empty name is also the answer to a
      file name that is no name's. */
  method UnfixFname(len: int, s: seq<bv8>) returns (out: seq<bv8>)
    ensures Unfixed(s).None? ==> out == []
    ensures Unfixed(s).Some? && |Unfixed(s).value| + 1 < len ==> out == Unfixed(s).value
    ensures Unfixed(s).Some? && |Unfixed(s).value| >= len ==> out == []
  {
    hide Tokens, Joined, Meaning, Pack, ValidState;
    StartEmpty();
    NothingMeans(Empty);
    out := [];
    if len < 2 || s == [] { return; }
    if s[0] == DOT {
      LeadingDot(s);
      return;
    }
    ghost var st := Empty;
    var w := Register(0);
    var p := 0;
    assert s[p..] == s;
    PrefixedTwice([], [], Unfixed(s));
    while p < |s|
      invariant ValidState(st) && w == Pack(st)
      invariant 0 <= p <= |s| && |out| < len
      invariant Unfixed(s) == Prefixed(out, Joined(Tokens(st, s[p..])))
      decreases 2 * (|s| - p) + |Held(st)|
    {
      if |out| >= len - 1 { return []; }
      ghost var input := s[p..];
      assert input[1..] == s[p + 1..];
      var token, used;
      ghost var st1;
      token, used, w, st1 := NextToken(s[p], w, st, input);
      ghost var rest := Tokens(st1, if used then input[1..] else input);
      if used { p := p + 1; }
      if token.Some? {
        JoinedCons(token.value, rest);
        var meant := Meaning(token.value);
        if meant.None? { return []; }
        if |out| + |meant.value| >= len && |meant.value| > 1 { return []; }
        PrefixedTwice(out, meant.value, Joined(rest));
        out := out + meant.value;
      } else {
        assert [] + rest == rest;
      }
      st := st1;
    }
    NothingMeans(st);
    assert s[p..] == [];
  }

  function Prefixed(a: seq<bv8>, b: Option<seq<bv8>>): Option<seq<bv8>> {
    if b.Some? then Some(a + b.value) else None
  }

  lemma PrefixedTwice(a: seq<bv8>, b: seq<bv8>, c: Option<seq<bv8>>)
    ensures Prefixed(a, Prefixed(b, c)) == Prefixed(a + b, c) && Prefixed([], c) == c
  {
    if c.Some? { assert a + (b + c.value) == (a + b) + c.value && [] + c.value == c.value; }
  }

  lemma LeadingDot(s: seq<bv8>)
    requires s != [] && s[0] == DOT
    ensures Unfixed(s) == None
  {
  }

  lemma NothingMeans(st: State)
    requires ValidState(st)
    ensures Joined(Tokens(st, [])) == Some([])
  {
  }

  lemma MeaningOfStandIn(b: bv8)
    requires b != 0 && b != DOT && !IsSafe(b)
    ensures Meaning(Decoded(Code(StandIn(b)))) == Some([b])
  {
    RomInverse(b);
    NotSpecial(b);
  }

  /** The look-alikes are not in the table. */
  lemma NotSpecial(b: bv8)
    ensures Rom(b) != 0x2215 && Rom(b) != 0x2216 && Rom(b) != 0x2024 && Rom(b) != 0x2025 && Rom(b) != 0x2026
  {
    hide Rom, Inverse;
    if Rom(b) in {0x2215, 0x2216, 0x2024, 0x2025, 0x2026} {
      NotListed(Rom(b));
      RomInverse(b);
    }
  }

  lemma NotListed(u: bv32)
    requires u == 0x2215 || u == 0x2216 || u == 0x2024 || u == 0x2025 || u == 0x2026
    ensures Inverse(u) == 0 && Rom(Inverse(u)) == 0
  {
  }

  // ---- There and back -----------------------------------------------------------------

  lemma LeaderMeans(n: nat)
    requires 1 <= n <= 3
    ensures Meaning(Decoded(Code(Leader(n)))) == Some(seq(n, _ => DOT))
  {
    assert seq(n, _ => DOT) == if n == 1 then [DOT] else if n == 2 then [DOT, DOT] else [DOT, DOT, DOT];
  }

  /** Every name without NUL is recovered from its file name, dots and slashes included. */
  lemma {:induction false} NameRoundTrip(s: seq<bv8>)
    requires 0 !in s
    ensures Unfixed(Fixed(s)) == Some(s)
    decreases |s|
  {
    hide Encode, Rom, Meaning, Search, Tokens, Joined, Leader, StandIn;
    assert s != [] ==> s == [s[0]] + s[1..];
    if s == [] {
      NothingMeans(Empty);
    } else if s[0] == DOT {
      var n := Dots(s);
      var rest := s[n..];
      NameRoundTrip(rest);
      LeaderMeans(n);
      LeaderFits(n);
      Prepended(Leader(n), seq(n, _ => DOT), rest);
      assert s == seq(n, _ => DOT) + rest;
    } else if IsSafe(s[0]) {
      NameRoundTrip(s[1..]);
      SafeMeans(s[0]);
      Prepended(s[0] as bv32, [s[0]], s[1..]);
    } else {
      NameRoundTrip(s[1..]);
      MeaningOfStandIn(s[0]);
      Prepended(StandIn(s[0]), [s[0]], s[1..]);
    }
  }

  lemma LeaderFits(n: nat)
    ensures 0x80 <= Leader(n) < 0x2700
  {
  }

  lemma SafeMeans(b: bv8)
    requires IsSafe(b)
    ensures b as bv32 < 0x80 && Encode(b as bv32) == [b] && (b as bv32) as bv8 == b && Meaning(Plain(b)) == Some([b])
  {
  }

  /** ASCII in a file name stands for itself, if it may be there at all; otherwise it is nobody's
      file name. */
  lemma AsciiMeans(c: bv8, t: seq<bv8>)
    requires c < 0x80
    ensures Unfixed([c] + t)
         == if 0x20 <= c <= 0x7E && c !in [0x2F, 0x5C, 0x2E] then Prefixed([c], Unfixed(t)) else None
  {
    hide Tokens;
    assert ([c] + t)[0] == c && ([c] + t)[1..] == t;
    OneAscii(c, t);
    JoinedCons(Plain(c), Tokens(Empty, t));
  }

  lemma OneAscii(c: bv8, t: seq<bv8>)
    requires c < 0x80
    ensures Tokens(Empty, [c] + t) == [Plain(c)] + Tokens(Empty, t)
  {
    assert ([c] + t)[0] == c && ([c] + t)[1..] == t;
  }

  /** What is left of a broken sequence is in nobody's file name, nor is a code point that is
      neither a look-alike nor in code page 437. */
  lemma OthersMean(r: Utf8.Result, cp: bv32)
    ensures !r.Code? ==> Meaning(Decoded(r)) == None
    ensures cp >= 0x80 && Search(cp).None? && cp !in [0x2215, 0x2216, 0x2024, 0x2025, 0x2026] ==>
              Meaning(Decoded(Code(cp))) == None
  {
  }

  /** What a file name is made of, counted. */
  lemma FirstAndRest(s: seq<bv8>)
    requires 0 !in s && s != []
    ensures |Fixed(s)| == FirstBytes(s) + |Fixed(AfterFirst(s))|
  {
    hide Encode, Rom;
  }

  function AsToken(cp: bv32): Token { if cp < 0x80 then Plain((cp & 0xFF) as bv8) else Decoded(Code(cp)) }

  lemma Prepended(cp: bv32, text: seq<bv8>, rest: seq<bv8>)
    requires 0 !in rest && Unfixed(Fixed(rest)) == Some(rest)
    requires cp < 0x2700 && Meaning(AsToken(cp)) == Some(text)
    ensures Unfixed(Encode(cp) + Fixed(rest)) == Some(text + rest)
  {
    hide Encode, Meaning, Fixed, Tokens;
    TokensOfEncoded(cp, Fixed(rest));
    JoinedCons(AsToken(cp), Tokens(Empty, Fixed(rest)));
  }

  lemma EncodeIsHigh(cp: bv32)
    requires 0x80 <= cp < 0x2700
    ensures forall i :: 0 <= i < |Encode(cp)| ==> Encode(cp)[i] >= 0x80
  {
  }

  /** A file name made this way has no slash, no backslash, no dot and no control character in
      it, unless as part of another character. */
  lemma {:induction false} FixedIsSafe(s: seq<bv8>)
    requires 0 !in s
    ensures forall b :: b in Fixed(s) ==> b >= 0x80 || (0x20 <= b <= 0x7E && b !in [0x2F, 0x5C, 0x2E])
    decreases |s|
  {
    hide Encode, Rom, Leader;
    if s == [] {
    } else if s[0] == DOT {
      FixedIsSafe(s[Dots(s)..]);
      LeaderFits(Dots(s));
      EncodeIsHigh(Leader(Dots(s)));
    } else {
      FixedIsSafe(s[1..]);
      if !IsSafe(s[0]) { EncodeIsHigh(StandIn(s[0])); }
    }
  }

  /** Character by character: printable ASCII stands for itself; a slash is a division slash, a
      backslash a set minus, and up to three dots are one leader of so many dots; the rest is
      what code page 437 has for it. */
  lemma FixedCases(c: bv8, t: seq<bv8>)
    requires c != 0 && 0 !in t
    ensures 0x20 <= c <= 0x7E && c !in [0x2F, 0x5C, 0x2E] ==> Fixed([c] + t) == [c] + Fixed(t)
    ensures Fixed([0x2F] + t) == [0xE2, 0x88, 0x95] + Fixed(t)
    ensures Fixed([0x5C] + t) == [0xE2, 0x88, 0x96] + Fixed(t)
    ensures t == [] || t[0] != 0x2E ==>
              && Fixed([0x2E] + t) == [0xE2, 0x80, 0xA4] + Fixed(t)
              && Fixed([0x2E, 0x2E] + t) == [0xE2, 0x80, 0xA5] + Fixed(t)
    ensures Fixed([0x2E, 0x2E, 0x2E] + t) == [0xE2, 0x80, 0xA6] + Fixed(t)
    ensures c < 0x20 || c > 0x7E ==> Fixed([c] + t) == Encode(Rom(c)) + Fixed(t)
  {
    hide Rom, Fixed, Encode, Dots;
    if c != 0x2E { FixedOther(c, t); }
    FixedOther(0x2F, t);
    FixedOther(0x5C, t);
    if t == [] || t[0] != 0x2E {
      FixedDots(1, [0x2E] + t, t);
      FixedDots(2, [0x2E, 0x2E] + t, t);
    }
    FixedDots(3, [0x2E, 0x2E, 0x2E] + t, t);
    EncodedStandIns();
  }

  lemma FixedOther(c: bv8, t: seq<bv8>)
    requires c != 0 && 0 !in t && c != DOT
    ensures Fixed([c] + t) == (if IsSafe(c) then [c] else Encode(StandIn(c))) + Fixed(t)
  {
    hide Encode, Rom;
    assert ([c] + t)[1..] == t;
  }

  lemma FixedDots(n: nat, s: seq<bv8>, t: seq<bv8>)
    requires 1 <= n <= 3 && 0 !in t && |s| == n + |t| && s[n..] == t && forall i :: 0 <= i < n ==> s[i] == DOT
    requires n == 3 || t == [] || t[0] != DOT
    ensures 0 !in s && Fixed(s) == Encode(Leader(n)) + Fixed(t)
  {
    hide Encode, Rom;
    assert forall i :: n <= i < |s| ==> s[i] == t[i - n];
    assert n < |s| ==> s[n] == t[0];
    assert Dots(s) == n;
  }

  lemma EncodedStandIns()
    ensures Encode(0x2215) == [0xE2, 0x88, 0x95] && Encode(0x2216) == [0xE2, 0x88, 0x96]
    ensures Encode(0x2024) == [0xE2, 0x80, 0xA4] && Encode(0x2025) == [0xE2, 0x80, 0xA5]
    ensures Encode(0x2026) == [0xE2, 0x80, 0xA6]
  {
  }
}
