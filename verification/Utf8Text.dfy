/** Reading a text with the decoder: a stray byte is reported before the next one is read.
    The text ends without the decoder being told so. */
module Utf8Text {
  import opened Wrappers
  import opened Utf8
  import opened PackedUtf8

  /** ASCII that the decoder is never shown, or one of its results. */
  datatype Token = Plain(b: bv8) | Decoded(r: Result)

  function Tokens(st: State, input: seq<bv8>): seq<Token>
    requires ValidState(st)
    decreases 2 * |input| + |Held(st)|
  {
    if input == [] then []
    else if st.Empty? && input[0] <= 0x7F then [Plain(input[0])] + Tokens(Empty, input[1..])
    else
      var ch := if st.Broken? then Eof else Byte(input[0]);
      DecodeKeepsBytes(st, ch);
      var (r, st') := Decode(st, ch);
      (if r.More? then [] else [Decoded(r)]) + Tokens(st', if st.Broken? then input else input[1..])
  }

  lemma {:induction false} PendingTokens(t: seq<bv8>, s: seq<bv8>, rest: seq<bv8>)
    requires ValidState(Pending(t)) && s != []
    requires Complete(t + s) && Acceptable(|t + s|, Value(t + s))
    ensures Tokens(Pending(t), s + rest) == [Decoded(Code(Value(t + s)))] + Tokens(Empty, rest)
    decreases |s|
  {
    var t1, input := t + [s[0]], s + rest;
    assert (t + s)[|t|] == s[0] && input[0] == s[0];
    assert input[1..] == s[1..] + rest;
    if |s| == 1 {
      assert t1 == t + s && s[1..] + rest == rest;
    } else {
      assert t1 + s[1..] == t + s;
      PendingTokens(t1, s[1..], rest);
    }
  }

  /** An encoded code point is read as itself, whatever follows it. */
  lemma TokensOfEncoded(cp: bv32, rest: seq<bv8>)
    requires Scalar(cp)
    ensures Tokens(Empty, Encode(cp) + rest) ==
              [if cp < 0x80 then Plain(cp as bv8) else Decoded(Code(cp))] + Tokens(Empty, rest)
  {
    var s := Encode(cp);
    var input := s + rest;
    assert input[0] == s[0] && input[1..] == s[1..] + rest;
    if cp < 0x80 {
      assert s[1..] + rest == rest;
    } else {
      ValueEncode(cp);
      EncodedAcceptable(cp);
      assert [s[0]] + s[1..] == s;
      PendingTokens([s[0]], s[1..], rest);
    }
  }

  // ---- One trip through a reading loop ------------------------------------------------

  predicate IsPlain(st: State, b: bv8) { st.Empty? && b <= 0x7F }

  function NextInput(st: State, b: bv8): Input {
    if st.Broken? then Eof else Byte(b)
  }

  lemma TokensStep(st: State, input: seq<bv8>)
    requires ValidState(st) && input != [] && !IsPlain(st, input[0])
    ensures var ch := NextInput(st, input[0]);
            var (r, st') := Decode(st, ch);
            && Proper(st, ch) && ValidState(st')
            && Tokens(st, input) ==
                 (if r.More? then [] else [Decoded(r)]) + Tokens(st', if st.Broken? then input else input[1..])
            && |Held(st)| + |Taken(ch)| >= |Held(st')| + (if r.More? then 0 else 1)
            && |Taken(ch)| == (if st.Broken? then 0 else 1)
            && (st.Broken? ==> !r.More?)
  {
    hide Decode;
    DecodeSizes(st, NextInput(st, input[0]));
  }

  lemma DecodeSizes(st: State, ch: Input)
    requires ValidState(st) && Proper(st, ch)
    ensures var (r, st') := Decode(st, ch);
            && |Held(st)| + |Taken(ch)| >= |Held(st')| + (if r.More? then 0 else 1)
            && (st.Broken? ==> !r.More?)
  {
    DecodeKeepsBytes(st, ch);
    BrokenAnswers(st, ch);
    RewrittenLength(st, ch);
  }

  lemma BrokenAnswers(st: State, ch: Input)
    requires ValidState(st) && Proper(st, ch)
    ensures st.Broken? ==> !Decode(st, ch).0.More?
  {
  }

  lemma RewrittenLength(st: State, ch: Input)
    requires ValidState(st) && Proper(st, ch)
    requires var (r, st') := Decode(st, ch);
             && (r.Code? ==> r.cp <= 0x10FFFF)
             && Held(st) + Taken(ch) == Rewritten(r) + Held(st')
    ensures var (r, st') := Decode(st, ch);
            |Held(st)| + |Taken(ch)| >= |Held(st')| + (if r.More? then 0 else 1)
  {
    hide Decode, Encode;
    var (r, st') := Decode(st, ch);
    assert |Held(st) + Taken(ch)| == |Rewritten(r) + Held(st')|;
  }

  lemma StateSigns(st: State)
    requires ValidState(st)
    ensures st.Empty? <==> Pack(st) == Register(0)
    ensures st.Broken? <==> Negative(Pack(st))
  {
    PackSigns(st);
  }

  lemma StartEmpty()
    ensures ValidState(Empty) && Held(Empty) == [] && Pack(Empty) == Register(0)
  {
  }

  /** The decoding half of one trip: `b` is the byte at hand, and `used` says whether the
      loop moves on from it.  No token means that more bytes are needed. */
  method NextToken(b: bv8, w0: Register, ghost st: State, ghost input: seq<bv8>)
    returns (token: Option<Token>, used: bool, w: Register, ghost st': State)
    requires ValidState(st) && w0 == Pack(st) && input != [] && input[0] == b
    ensures ValidState(st') && w == Pack(st')
    ensures Tokens(st, input) ==
              (if token.Some? then [token.value] else []) + Tokens(st', if used then input[1..] else input)
    ensures |Held(st')| + (if token.Some? then 1 else 0) <= |Held(st)| + (if used then 1 else 0)
    ensures used || token.Some?
  {
    hide Decode, Pack, Negative;
    StateSigns(st);
    used := !Negative(w0);
    if used && b <= 0x7F && w0 == Register(0) {
      return Some(Plain(b)), used, w0, st;
    }
    TokensStep(st, input);
    var r;
    r, w := DecodeUtf8(if used then Byte(b) else Eof, w0, st);
    st' := Decode(st, NextInput(st, b)).1;
    token := if r.More? then None else Some(Decoded(r));
  }
}
