/** SHA-1: the standard of FIPS 180-4, and what the source does instead. */
module Sha1 {

  datatype Word = Word(bits: bv32)

  // ---- Words --------------------------------------------------------------------------

  function Rotl1(x: Word): Word { Word((x.bits << 1) | (x.bits >> 31)) }

  function Rotl2(x: Word): Word { Word((x.bits << 2) | (x.bits >> 30)) }

  function Rotl5(x: Word): Word { Word((x.bits << 5) | (x.bits >> 27)) }

  function Rotl30(x: Word): Word { Word((x.bits << 30) | (x.bits >> 2)) }

  function Xor(a: Word, b: Word): Word { Word(a.bits ^ b.bits) }

  function Xor4(a: Word, b: Word, c: Word, d: Word): Word { Xor(Xor(Xor(a, b), c), d) }

  function Sum(a: Word, b: Word): Word { Word(a.bits + b.bits) }

  // ---- The message schedule -------------------------------------------------------------

  /** Section 6.1.2, step 1. */
  function Schedule(w: seq<Word>, t: nat): Word
    requires |w| == 16
  {
    if t < 16 then w[t]
    else Rotl1(Xor4(Schedule(w, t - 3), Schedule(w, t - 8), Schedule(w, t - 14), Schedule(w, t - 16)))
  }

  lemma RotlLinear(x: Word, y: Word)
    ensures Rotl1(Xor(x, y)) == Xor(Rotl1(x), Rotl1(y))
    ensures Rotl1(Rotl1(x)) == Rotl2(x)
  {
  }

  lemma XorCommutes(a: Word, b: Word)
    ensures Xor(a, b) == Xor(b, a)
  {
  }

  lemma XorAssociates(a: Word, b: Word, c: Word)
    ensures Xor(Xor(a, b), c) == Xor(a, Xor(b, c))
  {
  }

  lemma XorCancels(a: Word, b: Word)
    ensures Xor(a, Xor(a, b)) == b
  {
  }

  lemma Interchange(p: Word, q: Word, r: Word, s: Word)
    ensures Xor(Xor(p, q), Xor(r, s)) == Xor(Xor(p, r), Xor(q, s))
  {
    hide Xor;
    XorAssociates(p, q, Xor(r, s));
    XorAssociates(q, r, s);
    XorCommutes(q, r);
    XorAssociates(r, q, s);
    XorAssociates(p, r, Xor(q, s));
  }

  lemma Meeting(p: Word, x: Word, q: Word)
    ensures Xor(Xor(p, x), Xor(x, q)) == Xor(p, q)
  {
    hide Xor;
    XorAssociates(p, x, Xor(x, q));
    XorCancels(x, q);
  }

  lemma InPairs(a: Word, b: Word, c: Word, d: Word)
    ensures Xor4(a, b, c, d) == Xor(Xor(a, b), Xor(c, d))
  {
    hide Xor;
    XorAssociates(Xor(a, b), c, d);
  }

  /** What occurs twice cancels out. */
  lemma Cancelled(a: Word, b: Word, c: Word, d: Word, e: Word, f: Word, g: Word, h: Word, i: Word, j: Word)
    ensures Xor4(Xor4(a, b, c, d), Xor4(b, e, f, g), Xor4(c, f, h, i), Xor4(d, g, i, j)) == Xor4(a, e, h, j)
  {
    hide Xor, Xor4;
    InPairs(a, b, c, d);
    InPairs(b, e, f, g);
    InPairs(c, f, h, i);
    InPairs(d, g, i, j);
    InPairs(a, e, h, j);
    InPairs(Xor4(a, b, c, d), Xor4(b, e, f, g), Xor4(c, f, h, i), Xor4(d, g, i, j));
    Interchange(Xor(a, b), Xor(c, d), Xor(b, e), Xor(f, g));
    Interchange(Xor(c, f), Xor(h, i), Xor(d, g), Xor(i, j));
    Interchange(c, f, d, g);
    Meeting(a, b, e);
    Meeting(h, i, j);
    Meeting(Xor(a, e), Xor(Xor(c, d), Xor(f, g)), Xor(h, j));
  }

  lemma RotlXor4(a: Word, b: Word, c: Word, d: Word)
    ensures Xor4(Rotl1(a), Rotl1(b), Rotl1(c), Rotl1(d)) == Rotl1(Xor4(a, b, c, d))
  {
    hide Rotl1, Rotl2, Xor;
    RotlLinear(a, b);
    RotlLinear(Xor(a, b), c);
    RotlLinear(Xor(Xor(a, b), c), d);
  }

  lemma Unfold(w: seq<Word>, t: nat)
    requires |w| == 16 && t >= 16
    ensures Schedule(w, t)
         == Rotl1(Xor4(Schedule(w, t - 3), Schedule(w, t - 8), Schedule(w, t - 14), Schedule(w, t - 16)))
  {
  }

  /** From word 32 on, two steps of the schedule can be taken at once. */
  lemma TwoAtOnce(w: seq<Word>, t: nat)
    requires |w| == 16 && t >= 32
    ensures Schedule(w, t) ==
              Rotl2(Xor4(Schedule(w, t - 6), Schedule(w, t - 16), Schedule(w, t - 28), Schedule(w, t - 32)))
  {
    hide Rotl1, Rotl2, Xor4, Schedule;
    var a, b, c, d := Schedule(w, t - 6), Schedule(w, t - 11), Schedule(w, t - 17), Schedule(w, t - 19);
    var e, f, g := Schedule(w, t - 16), Schedule(w, t - 22), Schedule(w, t - 24);
    var h, i, j := Schedule(w, t - 28), Schedule(w, t - 30), Schedule(w, t - 32);
    Unfold(w, t);
    Unfold(w, t - 3);
    Unfold(w, t - 8);
    Unfold(w, t - 14);
    Unfold(w, t - 16);
    RotlXor4(Xor4(a, b, c, d), Xor4(b, e, f, g), Xor4(c, f, h, i), Xor4(d, g, i, j));
    Cancelled(a, b, c, d, e, f, g, h, i, j);
    RotlLinear(Xor4(a, e, h, j), a);
  }

  /** Extending sixteen words to eighty, in place. */
  method Extend(ww: array<Word>)
    requires ww.Length == 80
    modifies ww
    ensures forall t :: 0 <= t < 80 ==> ww[t] == Schedule(old(ww[..16]), t)
  {
    hide Rotl1, Rotl2, Xor4, Schedule;
    ghost var w := ww[..16];
    FirstWords(w);
    for t := 16 to 32
      invariant forall k :: 0 <= k < t ==> ww[k] == Schedule(w, k)
    {
      Unfold(w, t);
      ww[t] := Rotl1(Xor4(ww[t - 3], ww[t - 8], ww[t - 14], ww[t - 16]));
    }
    for t := 32 to 80
      invariant forall k :: 0 <= k < t ==> ww[k] == Schedule(w, k)
    {
      TwoAtOnce(w, t);
      ww[t] := Rotl2(Xor4(ww[t - 6], ww[t - 16], ww[t - 28], ww[t - 32]));
    }
  }

  lemma FirstWords(w: seq<Word>)
    requires |w| == 16
    ensures forall k :: 0 <= k < 16 ==> Schedule(w, k) == w[k]
  {
  }

  // ---- Padding --------------------------------------------------------------------------

  /** How many zeros bring the message, a one bit and its length up to whole blocks: the
      fewest that will do. */
  function ZeroCount(n: nat): (z: nat)
    ensures z < 64 && (n + 1 + z + 8) % 64 == 0
  {
    (55 - n) % 64
  }

  lemma FewestZeros(n: nat, z: nat)
    requires (n + 1 + z + 8) % 64 == 0
    ensures z >= ZeroCount(n)
  {
  }

  function Zeros(n: nat): (s: seq<bv8>)
    ensures |s| == n
  {
    seq(n, _ => 0)
  }

  /** The length in bits, as eight bytes, highest first. */
  function LengthBytes(bits: nat): (s: seq<bv8>)
    ensures |s| == 8
  {
    [(bits / 0x100_0000_0000_0000 % 256) as bv8, (bits / 0x1_0000_0000_0000 % 256) as bv8,
     (bits / 0x100_0000_0000 % 256) as bv8, (bits / 0x1_0000_0000 % 256) as bv8,
     (bits / 0x100_0000 % 256) as bv8, (bits / 0x1_0000 % 256) as bv8, (bits / 0x100 % 256) as bv8, (bits % 256) as bv8]
  }

  /** Section 5.1.1, in bytes. */
  function Padded(data: seq<bv8>): (p: seq<bv8>)
    ensures |p| % 64 == 0
  {
    data + [0x80] + Zeros(ZeroCount(|data|)) + LengthBytes(8 * |data|)
  }

  /** The tail that is put behind the data. */
  method MakeTail(databytes: nat) returns (tail: array<bv8>, loopcount: nat, tailbytes: nat)
    ensures fresh(tail) && tail.Length == 128 && 9 <= tailbytes <= 72 && databytes + tailbytes == 64 * loopcount
    ensures tail[..tailbytes] == [0x80] + Zeros(ZeroCount(databytes)) + LengthBytes(8 * databytes)
  {
    hide LengthBytes;
    loopcount := (databytes + 8) / 64 + 1;
    tailbytes := 64 * loopcount - databytes;
    tail := new bv8[128](_ => 0);
    tail[0] := 0x80;
    var length := LengthBytes(8 * databytes);
    for i := 0 to 8
      invariant tail[0] == 0x80
      invariant forall k :: 0 < k < tailbytes - 8 ==> tail[k] == 0
      invariant forall k :: 0 <= k < i ==> tail[tailbytes - 8 + k] == length[k]
    {
      tail[tailbytes - 8 + i] := length[i];
    }
    assert ZeroCount(databytes) == tailbytes - 9;
  }

  // ---- Words of a block -----------------------------------------------------------------

  function BigEndian(a: bv8, b: bv8, c: bv8, d: bv8): Word {
    Word((a as bv32 << 24) | (b as bv32 << 16) | (c as bv32 << 8) | d as bv32)
  }

  function WordAt(s: seq<bv8>, i: nat): Word
    requires i + 4 <= |s|
  {
    BigEndian(s[i], s[i + 1], s[i + 2], s[i + 3])
  }

  /** `W[widx] += byte << wcount`, for the byte that is `k`th in its word. */
  function AddByte(w: Word, b: bv8, k: nat): Word
    requires k < 4
  {
    Word(w.bits + (if k == 0 then b as bv32 << 24 else if k == 1 then b as bv32 << 16
                   else if k == 2 then b as bv32 << 8 else b as bv32))
  }

  lemma FourBytes(a: bv8, b: bv8, c: bv8, d: bv8)
    ensures AddByte(AddByte(AddByte(AddByte(Word(0), a, 0), b, 1), c, 2), d, 3) == BigEndian(a, b, c, d)
  {
  }

  /** A word with its first `k` bytes in. */
  function Begun(s: seq<bv8>, i: nat, k: nat): Word
    requires k <= 4 && i + k <= |s|
  {
    if k == 0 then Word(0) else AddByte(Begun(s, i, k - 1), s[i + k - 1], k - 1)
  }

  lemma BegunWord(s: seq<bv8>, i: nat)
    requires i + 4 <= |s|
    ensures Begun(s, i, 4) == WordAt(s, i)
  {
    hide AddByte, BigEndian;
    assert Begun(s, i, 1) == AddByte(Word(0), s[i], 0);
    assert Begun(s, i, 2) == AddByte(Begun(s, i, 1), s[i + 1], 1);
    assert Begun(s, i, 3) == AddByte(Begun(s, i, 2), s[i + 2], 2);
    FourBytes(s[i], s[i + 1], s[i + 2], s[i + 3]);
  }

  function BlockWords(s: seq<bv8>, block: nat): (w: seq<Word>)
    requires 64 * block + 64 <= |s|
    ensures |w| == 16
  {
    seq(16, k requires 0 <= k < 16 => WordAt(s, 64 * block + 4 * k))
  }

  /** One word is fed from the data while there is any, and from the tail after that. */
  method FeedWord(data: seq<bv8>, tail: array<bv8>, didx0: nat, ghost whole: seq<bv8>) returns (w: Word, didx: nat)
    requires tail.Length == 128 && |data| <= |whole| <= |data| + 128
    requires whole == data + tail[..|whole| - |data|] && didx0 + 4 <= |whole|
    ensures didx == didx0 + 4 && w == WordAt(whole, didx0)
  {
    hide AddByte, WordAt;
    w, didx := Word(0), didx0;
    var k := 0;
    while didx < |data| && k < 4
      invariant 0 <= k <= 4 && didx == didx0 + k && w == Begun(whole, didx0, k)
    {
      w := AddByte(w, data[didx], k);
      didx, k := didx + 1, k + 1;
    }
    while k < 4
      invariant 0 <= k <= 4 && didx == didx0 + k && w == Begun(whole, didx0, k)
      invariant k < 4 ==> didx >= |data|
    {
      w := AddByte(w, tail[didx - |data|], k);
      didx, k := didx + 1, k + 1;
    }
    BegunWord(whole, didx0);
  }

  // ---- Rounds ---------------------------------------------------------------------------

  datatype Hash = Hash(a: Word, b: Word, c: Word, d: Word, e: Word)

  const INITIAL := Hash(Word(0x6745_2301), Word(0xEFCD_AB89), Word(0x98BA_DCFE), Word(0x1032_5476), Word(0xC3D2_E1F0))

  /** Section 4.1.1. */
  function Ch(x: Word, y: Word, z: Word): Word { Word((x.bits & y.bits) ^ (!x.bits & z.bits)) }

  function Parity(x: Word, y: Word, z: Word): Word { Word(x.bits ^ y.bits ^ z.bits) }

  function Maj(x: Word, y: Word, z: Word): Word {
    Word((x.bits & y.bits) ^ (x.bits & z.bits) ^ (y.bits & z.bits))
  }

  function Ft(t: nat, x: Word, y: Word, z: Word): Word {
    if t < 20 then Ch(x, y, z) else if t < 40 then Parity(x, y, z) else if t < 60 then Maj(x, y, z) else Parity(x, y, z)
  }

  /** Section 4.2.1. */
  function Kt(t: nat): Word {
    if t < 20 then Word(0x5A82_7999) else if t < 40 then Word(0x6ED9_EBA1)
    else if t < 60 then Word(0x8F1B_BCDC) else Word(0xCA62_C1D6)
  }

  /** Section 6.1.2, step 3. */
  function Round(t: nat, h: Hash, w: Word): Hash {
    Hash(Sum(Sum(Sum(Sum(Rotl5(h.a), Ft(t, h.b, h.c, h.d)), h.e), Kt(t)), w), h.a, Rotl30(h.b), h.c, h.d)
  }

  function Rounds(h: Hash, w: seq<Word>, t: nat): Hash
    requires |w| == 16
  {
    if t == 0 then h else Round(t - 1, Rounds(h, w, t - 1), Schedule(w, t - 1))
  }

  function Block(h: Hash, w: seq<Word>): Hash
    requires |w| == 16
  {
    var r := Rounds(h, w, 80);
    Hash(Sum(h.a, r.a), Sum(h.b, r.b), Sum(h.c, r.c), Sum(h.d, r.d), Sum(h.e, r.e))
  }

  function Blocks(h: Hash, s: seq<bv8>, n: nat): Hash
    requires 64 * n <= |s|
  {
    if n == 0 then h else Block(Blocks(h, s, n - 1), BlockWords(s, n - 1))
  }

  /** Section 6.1.2. */
  function Digest(data: seq<bv8>): Hash {
    var p := Padded(data);
    Blocks(INITIAL, p, |p| / 64)
  }

  // ---- What the standard's constants and functions are --------------------------------------

  /** The constants are the square roots of 2, 3, 5 and 10, times 2^30; the words to begin with
      count their half bytes up, and down again. */
  lemma ConstantsMeant()
    ensures forall t :: 0 <= t < 80 ==> Kt(t) == Kt(t / 20 * 20)
    ensures forall k <- [(0, 2), (20, 3), (40, 5), (60, 10)] ::
              var (root, square) := (Kt(k.0).bits as int, k.1 * 0x1000_0000_0000_0000);
              root * root <= square < (root + 1) * (root + 1)
    ensures INITIAL.a.bits == 0x6745_2301 && INITIAL.b.bits == 0xEFCD_AB89
            && INITIAL.c.bits == !INITIAL.a.bits && INITIAL.d.bits == !INITIAL.b.bits
            && INITIAL.e.bits == 0xC3D2_E1F0
  {
    forall t | 0 <= t < 80 ensures Kt(t) == Kt(t / 20 * 20) {
      assert t / 20 * 20 == if t < 20 then 0 else if t < 40 then 20 else if t < 60 then 40 else 60;
    }
    assert Kt(0).bits as int == 0x5A82_7999 && Kt(20).bits as int == 0x6ED9_EBA1;
    assert Kt(40).bits as int == 0x8F1B_BCDC && Kt(60).bits as int == 0xCA62_C1D6;
  }

  /** The two shifts together rotate a word. */
  lemma RotationByOne(x: Word)
    ensures Rotl1(x).bits == x.bits.RotateLeft(1)
  {
  }

  lemma RotationByTwo(x: Word)
    ensures Rotl2(x).bits == x.bits.RotateLeft(2)
  {
  }

  lemma RotationByFive(x: Word)
    ensures Rotl5(x).bits == x.bits.RotateLeft(5)
  {
  }

  lemma RotationByThirty(x: Word)
    ensures Rotl30(x).bits == x.bits.RotateLeft(30)
  {
  }

  /** One chooses, one adds up, and one lets the majority decide. */
  lemma ChMeant(x: Word, y: Word, z: Word)
    ensures x.bits & Ch(x, y, z).bits == x.bits & y.bits
    ensures !x.bits & Ch(x, y, z).bits == !x.bits & z.bits
  {
  }

  lemma ParityMeant(x: Word, y: Word, z: Word)
    ensures Xor(Parity(x, y, z), z) == Xor(x, y)
  {
  }

  lemma MajMeant(x: Word, z: Word)
    ensures Maj(x, x, z) == x && Maj(x, z, x) == x && Maj(z, x, x) == x
  {
  }

  lemma FunctionOfRound(t: nat, x: Word, y: Word, z: Word)
    ensures t < 20 ==> Ft(t, x, y, z) == Ch(x, y, z)
    ensures 40 <= t < 60 ==> Ft(t, x, y, z) == Maj(x, y, z)
    ensures 20 <= t < 40 || 60 <= t ==> Ft(t, x, y, z) == Parity(x, y, z)
  {
    hide Ch, Maj, Parity;
  }

  // ---- The source's way -----------------------------------------------------------------

  function Choice(b: Word, c: Word, d: Word): Word { Word((b.bits & c.bits) | (!b.bits & d.bits)) }

  function Majority(b: Word, c: Word, d: Word): Word {
    Word((b.bits & c.bits) | (b.bits & d.bits) | (c.bits & d.bits))
  }

  /** Nothing is in both parts, or what is in two of them is in the third as well. */
  lemma ChoiceIsCh(b: Word, c: Word, d: Word)
    ensures Choice(b, c, d) == Ch(b, c, d)
  {
  }

  lemma MajorityIsMaj(b: Word, c: Word, d: Word)
    ensures Majority(b, c, d) == Maj(b, c, d)
  {
  }

  method MainLoop(h: Hash, ww: array<Word>, ghost w: seq<Word>) returns (r: Hash)
    requires ww.Length == 80 && |w| == 16 && forall t :: 0 <= t < 80 ==> ww[t] == Schedule(w, t)
    ensures r == Rounds(h, w, 80)
  {
    hide Choice, Majority, Ch, Parity, Maj, Sum, Rotl5, Rotl30, Schedule;
    var a, b, c, d, e := h.a, h.b, h.c, h.d, h.e;
    for idx := 0 to 80
      invariant Hash(a, b, c, d, e) == Rounds(h, w, idx)
    {
      var f, k;
      if idx <= 19 {
        ChoiceIsCh(b, c, d);
        f, k := Choice(b, c, d), Word(0x5A82_7999);
      } else if idx <= 39 {
        f, k := Parity(b, c, d), Word(0x6ED9_EBA1);
      } else if idx <= 59 {
        MajorityIsMaj(b, c, d);
        f, k := Majority(b, c, d), Word(0x8F1B_BCDC);
      } else {
        f, k := Parity(b, c, d), Word(0xCA62_C1D6);
      }
      var temp := Sum(Sum(Sum(Sum(Rotl5(a), f), e), k), ww[idx]);
      e, d, c, b, a := d, c, Rotl30(b), a, temp;
    }
    r := Hash(a, b, c, d, e);
  }

  /** `sha1digest`, up to writing the five words out: it is SHA-1, for every message whose
      padded length can be counted in 32 bits. */
  method Sha1Digest(data: seq<bv8>) returns (h: Hash)
    requires |data| + 72 < 0x1_0000_0000
    ensures h == Digest(data)
  {
    hide Block, BlockWords, WordAt, ZeroCount, Zeros, LengthBytes;
    var tail, loopcount, tailbytes := MakeTail(|data|);
    ghost var whole := Padded(data);
    assert whole == data + tail[..tailbytes];
    h := INITIAL;
    var didx := 0;
    var ww := new Word[80](_ => Word(0));
    for lidx := 0 to loopcount
      invariant h == Blocks(INITIAL, whole, lidx) && didx == 64 * lidx
      invariant whole == data + tail[..tailbytes] && |whole| == 64 * loopcount
    {
      ghost var w := BlockWords(whole, lidx);
      FeedBlock(data, tail, didx, whole, lidx, ww);
      didx := didx + 64;
      Extend(ww);
      assert ww[..16] == ww[..16];
      var r := MainLoop(h, ww, w);
      BlockIs(h, w);
      h := Hash(Sum(h.a, r.a), Sum(h.b, r.b), Sum(h.c, r.c), Sum(h.d, r.d), Sum(h.e, r.e));
    }
  }

  lemma BlockIs(h: Hash, w: seq<Word>)
    requires |w| == 16
    ensures var r := Rounds(h, w, 80);
            Block(h, w) == Hash(Sum(h.a, r.a), Sum(h.b, r.b), Sum(h.c, r.c), Sum(h.d, r.d), Sum(h.e, r.e))
  {
  }

  method FeedBlock(data: seq<bv8>, tail: array<bv8>, didx0: nat, ghost whole: seq<bv8>, ghost block: nat,
                   ww: array<Word>)
    requires tail.Length == 128 && ww.Length == 80 && |data| <= |whole| <= |data| + 128
    requires whole == data + tail[..|whole| - |data|] && didx0 == 64 * block && didx0 + 64 <= |whole|
    modifies ww
    ensures ww[..16] == BlockWords(whole, block)
  {
    hide WordAt;
    var didx := didx0;
    for widx := 0 to 16
      invariant didx == didx0 + 4 * widx
      invariant forall k :: 0 <= k < widx ==> ww[k] == WordAt(whole, 64 * block + 4 * k)
    {
      ww[widx], didx := FeedWord(data, tail, didx, whole);
    }
  }
}
