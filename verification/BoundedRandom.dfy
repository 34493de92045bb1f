/** Random numbers below a bound out of random 32 bit words: some words are rejected so
    that no result is more likely than another. */
module BoundedRandom {
  import opened Wrappers
  import opened World

  const WORDS: int := 0x1_0000_0000

  predicate IsBound(b: int) { 0 < b < WORDS }

  predicate IsWord(x: int) { 0 <= x < WORDS }

  // ---- Multiply and shift -------------------------------------------------------------

  /** What is left over when the words are dealt out evenly. */
  function Threshold(b: int): (t: int)
    requires IsBound(b)
    ensures 0 <= t < b
  {
    WORDS % b
  }

  predicate Accepted(b: int, x: int)
    requires IsBound(b)
  {
    (b * x) % WORDS >= Threshold(b)
  }

  function Result(b: int, x: int): int { (b * x) / WORDS }

  /** The words that give a certain result. */
  ghost function Draws(b: int, r: int): set<int>
    requires IsBound(b)
  {
    set x: int | 0 <= x < WORDS && Accepted(b, x) && Result(b, x) == r
  }

  ghost function Interval(lo: int, hi: int): (s: set<int>)
    ensures forall x :: x in s <==> lo <= x < hi
    decreases hi - lo
  {
    if lo < hi then Interval(lo, hi - 1) + {hi - 1} else {}
  }

  lemma {:induction false} IntervalSize(lo: int, hi: int)
    requires lo <= hi
    ensures |Interval(lo, hi)| == hi - lo
    decreases hi - lo
  {
    if lo < hi { IntervalSize(lo, hi - 1); }
  }

  /** The first multiple of `b` that is not below `y`. */
  function Ceiling(y: int, b: int): int
    requires b > 0
  {
    (y + b - 1) / b
  }

  lemma MulLe(b: int, x: int, y: int)
    requires b >= 0 && x <= y
    ensures b * x <= b * y
  {
    assert b * (y - x) >= 0;
  }

  lemma CeilingBounds(y: int, b: int)
    requires b > 0
    ensures b * (Ceiling(y, b) - 1) < y <= b * Ceiling(y, b)
  {
    var c := Ceiling(y, b);
    assert y + b - 1 == c * b + (y + b - 1) % b;
    assert b * (c - 1) == b * c - b;
  }

  lemma CeilingIsLeast(y: int, b: int, x: int)
    requires b > 0
    ensures x >= Ceiling(y, b) <==> b * x >= y
  {
    hide Ceiling;
    var c := Ceiling(y, b);
    CeilingBounds(y, b);
    if x >= c { MulLe(b, c, x); } else { MulLe(b, x, c - 1); }
  }

  lemma CeilingSteps(y: int, b: int, q: int)
    requires b > 0
    ensures Ceiling(y + b * q, b) == Ceiling(y, b) + q
  {
    var u := y + b - 1;
    assert (u / b + q) * b + u % b == u + b * q;
    DivideUniquely((u + b * q) / b, (u + b * q) % b, u / b + q, u % b, b);
  }

  lemma ResultBounds(b: int, x: int, r: int)
    requires IsBound(b)
    ensures (Accepted(b, x) && Result(b, x) == r) <==>
              r * WORDS + Threshold(b) <= b * x < r * WORDS + WORDS
  {
    var v := b * x;
    assert v == (v / WORDS) * WORDS + v % WORDS;
  }

  /** Of all words exactly as many give one result as any other. */
  lemma EveryResultAlike(b: int, r: int)
    requires IsBound(b) && 0 <= r < b
    ensures |Draws(b, r)| == WORDS / b
  {
    var t, q := Threshold(b), WORDS / b;
    var y := r * WORDS + t;
    var lo := Ceiling(y, b);
    CeilingSteps(y, b, q);
    assert y + b * q == r * WORDS + WORDS;
    assert Draws(b, r) == Interval(lo, lo + q) by {
      forall x: int ensures x in Draws(b, r) <==> x in Interval(lo, lo + q) {
        ResultBounds(b, x, r);
        CeilingIsLeast(y, b, x);
        CeilingIsLeast(y + b * q, b, x);
        if x in Interval(lo, lo + q) { InRange(b, x, r); }
      }
    }
    IntervalSize(lo, lo + q);
  }

  lemma InRange(b: int, x: int, r: int)
    requires IsBound(b) && 0 <= r < b && r * WORDS <= b * x < r * WORDS + WORDS
    ensures 0 <= x < WORDS
  {
    MulLe(WORDS, r + 1, b);
    CeilingSteps(0, b, WORDS);
    CeilingIsLeast(0, b, x);
    CeilingIsLeast(0 + b * WORDS, b, x);
  }

  // ---- The remainder ------------------------------------------------------------------

  /** The other way: words below the threshold are rejected, and the remainder taken. */
  ghost function Remainders(b: int, lo: int, hi: int, r: int): set<int>
    requires b > 0
  {
    set x: int | lo <= x < hi && x % b == r
  }

  lemma OneInBlock(b: int, lo: int, r: int) returns (x0: int)
    requires 0 <= r < b
    ensures lo <= x0 < lo + b && x0 % b == r
    ensures forall x: int :: lo <= x < lo + b && x % b == r ==> x == x0
  {
    x0 := lo + (r - lo) % b;
    var k := (r - lo) / b;
    assert r - lo == k * b + (r - lo) % b;
    assert x0 == (-k) * b + r;
    DivideUniquely(x0 / b, x0 % b, -k, r, b);
    forall x: int | lo <= x < lo + b && x % b == r ensures x == x0 {
      assert x == (x / b) * b + r && x0 == (-k) * b + r;
      var d := x / b + k;
      assert 0 * b + (x - lo) == d * b + (x0 - lo);
      DivideUniquely(0, x - lo, d, x0 - lo, b);
    }
  }

  lemma NextBlock(b: int, lo: int, mid: int, r: int)
    requires 0 <= r < b && lo <= mid
    ensures |Remainders(b, lo, mid + b, r)| == |Remainders(b, lo, mid, r)| + 1
  {
    var x0 := OneInBlock(b, mid, r);
    assert Remainders(b, lo, mid + b, r) == Remainders(b, lo, mid, r) + {x0};
  }

  lemma {:induction false} BlocksCount(b: int, lo: int, q: nat, r: int)
    requires 0 <= r < b
    ensures |Remainders(b, lo, lo + b * q, r)| == q
    decreases q
  {
    hide Remainders;
    if q == 0 {
      NoRemainders(b, lo, r);
    } else {
      BlocksCount(b, lo, q - 1, r);
      MulLe(b, 0, q - 1);
      NextBlock(b, lo, lo + b * (q - 1), r);
      assert lo + b * (q - 1) + b == lo + b * q;
    }
  }

  lemma NoRemainders(b: int, lo: int, r: int)
    requires b > 0
    ensures Remainders(b, lo, lo, r) == {}
  {
  }

  /** Both ways have the same counts. */
  lemma EveryRemainderAlike(b: int, r: int)
    requires IsBound(b) && 0 <= r < b
    ensures |Remainders(b, Threshold(b), WORDS, r)| == WORDS / b == |Draws(b, r)|
  {
    assert Threshold(b) + b * (WORDS / b) == WORDS;
    BlocksCount(b, Threshold(b), WORDS / b, r);
    EveryResultAlike(b, r);
  }

  /** Fewer words are rejected than not. */
  lemma MostAreAccepted(b: int)
    requires IsBound(b)
    ensures 2 * Threshold(b) < WORDS
  {
    var q := WORDS / b;
    assert WORDS == q * b + Threshold(b);
    assert q >= 1;
    assert q * b >= b;
  }

  // ---- The loops ------------------------------------------------------------------------

  /** The remainder that takes no number beyond 32 bits to work out. */
  lemma NarrowThreshold(b: int)
    requires IsBound(b)
    ensures (WORDS - b) % b == Threshold(b)
  {
    var u := WORDS - b;
    assert WORDS == (u / b + 1) * b + u % b;
    DivideUniquely(WORDS / b, WORDS % b, u / b + 1, u % b, b);
  }

  /** `pcg32_boundedrand_r`, `splitmix64_bounded_r` and case 9 of `bounded_random_r`, given
      the words that the generator is about to produce; `used` is how many are taken.
      The early way out changes nothing. */
  method BoundedRand(bound: int, words: seq<int>) returns (r: Option<int>, used: nat)
    requires IsBound(bound) && forall i :: 0 <= i < |words| ==> IsWord(words[i])
    ensures used <= |words| && (r.None? ==> used == |words|)
    ensures forall i :: 0 <= i < (if r.Some? then used - 1 else used) ==> !Accepted(bound, words[i])
    ensures r.Some? ==> used > 0 && Accepted(bound, words[used - 1]) && r.value == Result(bound, words[used - 1])
    ensures r.Some? ==> 0 <= r.value < bound
  {
    NarrowThreshold(bound);
    used := 0;
    while used < |words|
      invariant used <= |words| && forall i :: 0 <= i < used ==> !Accepted(bound, words[i])
    {
      var x := words[used];
      var p := bound * x;
      used := used + 1;
      var l := p % WORDS;
      ResultInRange(bound, x);
      if l >= bound { return Some(p / WORDS), used; }
      var threshold := (WORDS - bound) % bound;
      if l >= threshold { return Some(p / WORDS), used; }
    }
    r := None;
  }

  lemma ResultInRange(b: int, x: int)
    requires IsBound(b) && IsWord(x)
    ensures 0 <= Result(b, x) < b
  {
    MulLe(b, 0, x);
    MulLe(b, x, WORDS - 1);
    var v := b * x;
    assert 0 <= v < WORDS * b;
  }

  /** Case 0 of `bounded_random_r`. */
  method BoundedRemainder(bound: int, words: seq<int>) returns (r: Option<int>, used: nat)
    requires IsBound(bound) && forall i :: 0 <= i < |words| ==> IsWord(words[i])
    ensures used <= |words| && (r.None? ==> used == |words|)
    ensures forall i :: 0 <= i < (if r.Some? then used - 1 else used) ==> words[i] < Threshold(bound)
    ensures r.Some? ==> used > 0 && words[used - 1] in Remainders(bound, Threshold(bound), WORDS, r.value)
    ensures r.Some? ==> 0 <= r.value < bound
  {
    NarrowThreshold(bound);
    var threshold := (WORDS - bound) % bound;
    used := 0;
    while used < |words|
      invariant used <= |words| && forall i :: 0 <= i < used ==> words[i] < Threshold(bound)
    {
      var x := words[used];
      used := used + 1;
      if x >= threshold { return Some(x % bound), used; }
    }
    r := None;
  }
}
